/**
 * The registration counter of the prom page (`app/prom/page.tsx`): the
 * early-bird pricing configuration, the status record the fetch effect sets,
 * and the update a submit applies to it. The form's field validation and
 * the toast rendering are not modelled; the toast is returned as a value.
 */
module Prom {
  import opened Common

  const EarlyBirdLimit: int := 30
  const EarlyBirdPrice: int := 299
  const RegularPrice: int := 399
  const MaxRegistrations: int := 100

  /** `RegistrationStatus` */
  datatype RegistrationStatus = RegistrationStatus(currentCount: int, isEarlyBirdAvailable: bool,
                                                   currentPrice: int, spotsRemaining: int)

  /** The title and description of a toast. */
  datatype Toast = Toast(title: string, description: string)

  /** The price in effect after `count` registrations. */
  function PriceFor(count: int): (p: int)
    ensures p == EarlyBirdPrice <==> count < EarlyBirdLimit
    ensures p == RegularPrice <==> count >= EarlyBirdLimit
  {
    if count < EarlyBirdLimit then EarlyBirdPrice else RegularPrice
  }

  /** The status the fetch effect derives from a registration count. */
  function StatusFor(count: int): (s: RegistrationStatus)
    ensures s.currentCount == count
    ensures s.isEarlyBirdAvailable <==> count < EarlyBirdLimit
    ensures s.currentPrice == PriceFor(count)
    ensures s.currentCount + s.spotsRemaining == MaxRegistrations
  {
    RegistrationStatus(count, count < EarlyBirdLimit, PriceFor(count), MaxRegistrations - count)
  }

  /**
   * The invariant of the page: the flag and the price follow the count, the
   * count and the free spots add up to the maximum, and neither is negative.
   */
  predicate Coherent(s: RegistrationStatus)
  {
    0 <= s.currentCount <= MaxRegistrations && s == StatusFor(s.currentCount)
  }

  /** The initial state: no registrations, the early-bird price, every spot free. */
  const Initial: RegistrationStatus := RegistrationStatus(0, true, EarlyBirdPrice, MaxRegistrations)

  lemma InitialIsFetchedZero()
    ensures Initial == StatusFor(0) && Coherent(Initial)
  {
  }

  /** The confirmation toast quotes the price and the tier in effect before the submit. */
  function ConfirmationToast(s: RegistrationStatus): Toast
  {
    Toast("Registration Submitted!",
          "You've secured the " + (if s.isEarlyBirdAvailable then "early bird" else "regular")
          + " price of ₹" + IntToString(s.currentPrice) + "!")
  }

  const FullToast: Toast := Toast("Registration Failed", "Sorry, all spots have been filled!")

  /** `onSubmit`: the toast shown and the new status. */
  function SubmitSpec(s: RegistrationStatus): (RegistrationStatus, Toast)
  {
    if s.spotsRemaining == 0 then (s, FullToast)
    else
      var next := s.currentCount + 1;
      (s.(currentCount := next,
          isEarlyBirdAvailable := next < EarlyBirdLimit,
          spotsRemaining := s.spotsRemaining - 1,
          currentPrice := if next < EarlyBirdLimit then EarlyBirdPrice else RegularPrice),
       ConfirmationToast(s))
  }

  /** With no spot left a submit is refused and the status stays as it was. */
  lemma FullSubmitRejected(s: RegistrationStatus)
    requires s.spotsRemaining == 0
    ensures SubmitSpec(s) == (s, FullToast)
  {
  }

  /**
   * A submit keeps the invariant: it is either refused (no spot left) or it
   * adds one registration and takes one spot, so the free spots never go
   * negative.
   */
  lemma SubmitKeepsCoherent(s: RegistrationStatus)
    requires Coherent(s)
    ensures Coherent(SubmitSpec(s).0)
    ensures SubmitSpec(s).0.spotsRemaining >= 0
    ensures s.spotsRemaining > 0 ==>
      SubmitSpec(s).0 == StatusFor(s.currentCount + 1)
      && SubmitSpec(s).0.currentCount == s.currentCount + 1
      && SubmitSpec(s).0.spotsRemaining == s.spotsRemaining - 1
    ensures s.spotsRemaining == 0 <==> s.currentCount == MaxRegistrations
  {
  }

  /** A successful submit confirms the price that applied before the count went up. */
  lemma ConfirmationQuotesPreviousPrice(s: RegistrationStatus)
    requires Coherent(s) && s.spotsRemaining > 0
    ensures SubmitSpec(s).1.description ==
      "You've secured the " + (if s.currentCount < EarlyBirdLimit then "early bird" else "regular")
      + " price of ₹" + IntToString(PriceFor(s.currentCount)) + "!"
  {
  }

  /** The 30th registration is confirmed at the early-bird price, and the next price is the regular one. */
  lemma LastEarlyBirdSeat(s: RegistrationStatus)
    requires Coherent(s) && s.currentCount == EarlyBirdLimit - 1
    ensures SubmitSpec(s).1 == ConfirmationToast(s) && s.currentPrice == EarlyBirdPrice
    ensures SubmitSpec(s).0.currentPrice == RegularPrice && !SubmitSpec(s).0.isEarlyBirdAvailable
  {
  }

  /** `n` submits in a row. */
  function Submits(s: RegistrationStatus, n: nat): RegistrationStatus
    decreases n
  {
    if n == 0 then s else Submits(SubmitSpec(s).0, n - 1)
  }

  /**
   * Along any run of submits the count never decreases and the price never
   * falls: once the regular price applies it stays.
   */
  lemma {:induction false} CountAndPriceMonotone(s: RegistrationStatus, n: nat)
    requires Coherent(s)
    decreases n
    ensures Coherent(Submits(s, n))
    ensures Submits(s, n).currentCount >= s.currentCount
    ensures Submits(s, n).currentPrice >= s.currentPrice
    ensures s.currentPrice == RegularPrice ==> Submits(s, n).currentPrice == RegularPrice
  {
    if n > 0 {
      SubmitKeepsCoherent(s);
      CountAndPriceMonotone(SubmitSpec(s).0, n - 1);
    }
  }

  /**
   * The "spots left" figure shown next to the early-bird price is
   * `30 - count`, and while the tier is open it is between 1 and 30.
   */
  function EarlyBirdSpotsLeft(s: RegistrationStatus): (k: int)
    requires Coherent(s) && s.isEarlyBirdAvailable
    ensures 1 <= k <= EarlyBirdLimit
    ensures k + s.currentCount == EarlyBirdLimit
  {
    EarlyBirdLimit - s.currentCount
  }

  /** The component's state. */
  class PromRegistration {
    var registrationStatus: RegistrationStatus

    constructor ()
      ensures registrationStatus == Initial
    {
      registrationStatus := Initial;
    }

    /** The fetch effect, with the count it would read from the backend as a parameter. */
    method FetchRegistrationCount(count: int)
      modifies this
      ensures registrationStatus == StatusFor(count)
    {
      registrationStatus := RegistrationStatus(count, count < EarlyBirdLimit,
        if count < EarlyBirdLimit then EarlyBirdPrice else RegularPrice, MaxRegistrations - count);
    }

    method OnSubmit() returns (toast: Toast)
      modifies this
      ensures (registrationStatus, toast) == SubmitSpec(old(registrationStatus))
    {
      if registrationStatus.spotsRemaining == 0 {
        return FullToast;
      }
      toast := ConfirmationToast(registrationStatus);
      var prev := registrationStatus;
      registrationStatus := prev.(currentCount := prev.currentCount + 1,
                                  isEarlyBirdAvailable := prev.currentCount + 1 < EarlyBirdLimit,
                                  spotsRemaining := prev.spotsRemaining - 1,
                                  currentPrice := if prev.currentCount + 1 < EarlyBirdLimit then EarlyBirdPrice else RegularPrice);
    }
  }
}
