/**
 * The profile-completion form of `components/registration-form.tsx`: the
 * sports checkboxes, the college picker and the submit guard, and what the
 * `/api/user/register` route makes of the body the form sends.
 */
module RegistrationForm {
  import opened Common
  import opened ClientCommon
  import opened Database
  import UserRegisterRoute

  /** `sportsOptions`: the twenty sports the form offers. */
  const SportsOptions: seq<string> := [
    "Football", "Basketball", "Cricket", "Badminton", "Table Tennis", "Tennis", "Volleyball",
    "Swimming", "Athletics (Track & Field)", "Hockey", "Kabaddi", "Chess", "Carrom",
    "Weightlifting", "Boxing", "Wrestling", "Cycling", "Rock Climbing", "Archery", "Shooting"
  ]

  /** A college as `/api/colleges` returns it; `id` is the rendered `_id`. */
  datatype College = College(id: string, name: string, collegeType: string)

  /** `formData` */
  datatype FormData = FormData(name: string, phoneNumber: string, collegeName: string,
                               collegeType: string, sportsToPlay: seq<string>)

  /** The initial form: the signed-in user's name (`user.name || ""`) and nothing else. */
  function InitialForm(userName: Option<string>): (f: FormData)
    ensures f.sportsToPlay == [] && f.phoneNumber == "" && f.collegeName == "" && f.collegeType == ""
    ensures f.name == OrEmpty(userName)
  {
    FormData(if Truthy(userName) then userName.value else "", "", "", "", [])
  }

  /** `handleSportsChange(sport, checked)` */
  function SportsChange(f: FormData, sport: string, checked: bool): (r: FormData)
    ensures r.name == f.name && r.phoneNumber == f.phoneNumber
    ensures r.collegeName == f.collegeName && r.collegeType == f.collegeType
    ensures checked ==> r.sportsToPlay == f.sportsToPlay + [sport]
    ensures !checked ==> sport !in r.sportsToPlay
  {
    if checked then f.(sportsToPlay := f.sportsToPlay + [sport])
    else f.(sportsToPlay := RemoveAll(f.sportsToPlay, sport))
  }

  /**
   * Unchecking removes every copy of the sport and keeps every other sport
   * as often as it was selected.
   */
  lemma UncheckRemovesOnlyThatSport(f: FormData, sport: string, other: string)
    requires other != sport
    ensures multiset(SportsChange(f, sport, false).sportsToPlay)[other] == multiset(f.sportsToPlay)[other]
    ensures multiset(SportsChange(f, sport, false).sportsToPlay)[sport] == 0
  {
    RemoveAllCounts(f.sportsToPlay, sport, other);
  }

  /** Checking a sport that was not selected and unchecking it again restores the form. */
  lemma CheckThenUncheckRestores(f: FormData, sport: string)
    requires sport !in f.sportsToPlay
    ensures SportsChange(SportsChange(f, sport, true), sport, false) == f
  {
    RemoveAllAppend(f.sportsToPlay, [sport], sport);
    RemoveAllAbsent(f.sportsToPlay, sport);
    assert RemoveAll([sport], sport) == [];
  }

  /** `colleges.find((c) => c._id?.toString() === collegeId)` */
  function FindCollege(colleges: seq<College>, collegeId: string): (r: Option<College>)
    ensures r.None? <==> forall i :: 0 <= i < |colleges| ==> colleges[i].id != collegeId
    ensures r.Some? ==> r.value in colleges && r.value.id == collegeId
  {
    if colleges == [] then None
    else if colleges[0].id == collegeId then Some(colleges[0])
    else FindCollege(colleges[1..], collegeId)
  }

  /** `handleCollegeChange(collegeId)` */
  function CollegeChange(f: FormData, colleges: seq<College>, collegeId: string): (r: FormData)
  {
    match FindCollege(colleges, collegeId)
    case None => f
    case Some(c) => f.(collegeName := c.name, collegeType := c.collegeType)
  }

  /**
   * An unknown college id leaves the form as it was; a known one copies the
   * first such college's name and type and changes no other field.
   */
  lemma CollegeChangeCases(f: FormData, colleges: seq<College>, collegeId: string)
    ensures (forall i :: 0 <= i < |colleges| ==> colleges[i].id != collegeId) ==>
      CollegeChange(f, colleges, collegeId) == f
    ensures forall i :: 0 <= i < |colleges| && colleges[i].id == collegeId
                        && (forall j :: 0 <= j < i ==> colleges[j].id != collegeId) ==>
      CollegeChange(f, colleges, collegeId) == f.(collegeName := colleges[i].name, collegeType := colleges[i].collegeType)
  {
    forall i | 0 <= i < |colleges| && colleges[i].id == collegeId
               && (forall j :: 0 <= j < i ==> colleges[j].id != collegeId)
      ensures FindCollege(colleges, collegeId) == Some(colleges[i])
    {
      FindCollegeFirst(colleges, collegeId, i);
    }
  }

  lemma {:induction false} FindCollegeFirst(colleges: seq<College>, collegeId: string, i: nat)
    requires i < |colleges| && colleges[i].id == collegeId
    requires forall j :: 0 <= j < i ==> colleges[j].id != collegeId
    ensures FindCollege(colleges, collegeId) == Some(colleges[i])
  {
    if i > 0 {
      FindCollegeFirst(colleges[1..], collegeId, i - 1);
    }
  }

  // ---------------------------------------------------------------------------
  // Submit
  // ---------------------------------------------------------------------------

  const NoSportError: string := "Please select at least one sport to participate in."

  /** What `handleSubmit` does besides updating state. */
  datatype SubmitAction = NoRequest | SentThenStay(body: FormData) | SentThenDashboard(body: FormData)

  /** The form's state. */
  datatype FormState = FormState(formData: FormData, error: string, isLoading: bool)

  /** `handleSubmit`: the guard, then the POST of `formData` with its outcome as a parameter. */
  function SubmitSpec(st: FormState, outcome: FetchOutcome): (SubmitAction, FormState)
  {
    if st.formData.sportsToPlay == [] then (NoRequest, st.(error := NoSportError, isLoading := false))
    else
      match outcome
      case Ok => (SentThenDashboard(st.formData), st.(error := "", isLoading := false))
      case NotOk(error) =>
        (SentThenStay(st.formData),
         st.(error := ErrorText(error, "Registration failed. Please try again."), isLoading := false))
      case Threw => (SentThenStay(st.formData), st.(error := GenericError, isLoading := false))
  }

  /**
   * With no sport selected nothing is sent and the error is set; in every
   * case the form stays as it was and loading is over.
   */
  lemma SubmitOutcomes(st: FormState, outcome: FetchOutcome)
    ensures var (action, st') := SubmitSpec(st, outcome);
      st'.formData == st.formData && !st'.isLoading
      && (st.formData.sportsToPlay == [] <==> action == NoRequest)
      && (st.formData.sportsToPlay == [] ==> st'.error == NoSportError)
      && (action.SentThenDashboard? <==> st.formData.sportsToPlay != [] && outcome.Ok?)
  {
  }

  // ---------------------------------------------------------------------------
  // The body the route receives
  // ---------------------------------------------------------------------------

  /**
   * What `/api/user/register` reads from `JSON.stringify(formData)`: the
   * route destructures `leaderName` and `sports`, which the form does not
   * send, so both are absent.
   */
  function BodyAsSent(f: FormData): (b: UserRegisterRoute.ProfileBody)
    ensures b.leaderName.None? && b.sports.None?
    ensures b.phoneNumber == Some(f.phoneNumber) && b.collegeName == Some(f.collegeName)
  {
    UserRegisterRoute.ProfileBody(None, Some(f.phoneNumber), Some(f.collegeName), None)
  }

  /**
   * Every submission of the form, however it is filled in, is refused by
   * the route with 400 "All fields are required" and writes nothing.
   */
  lemma EveryFormSubmissionRefused(db: Db, email: string, f: FormData)
    requires email != ""
    ensures UserRegisterRoute.PostSpec(db, Some(email), Some(BodyAsSent(f)))
      == (Reply(400, Some("All fields are required")), db)
  {
  }

  /** The banner the form shows for that refusal is the route's error. */
  lemma RefusalShownToUser(st: FormState)
    requires st.formData.sportsToPlay != []
    ensures SubmitSpec(st, NotOk(Some("All fields are required"))).1.error == "All fields are required"
  {
  }

  /** One participant for each selected sport: the count object the route stores. */
  function SportsCountsOf(sports: seq<string>): (r: SportsCounts)
    ensures |r| == |sports|
    ensures forall i :: 0 <= i < |r| ==> r[i] == (sports[i], 1)
  {
    seq(|sports|, i requires 0 <= i < |sports| => (sports[i], 1))
  }

  /** The body the route expects: the form's name as `leaderName` and the selected sports as counts. */
  function IntendedBody(f: FormData): (b: UserRegisterRoute.ProfileBody)
    ensures b.leaderName == Some(f.name) && b.phoneNumber == Some(f.phoneNumber)
    ensures b.collegeName == Some(f.collegeName) && b.sports == Some(SportsCountsOf(f.sportsToPlay))
  {
    UserRegisterRoute.ProfileBody(Some(f.name), Some(f.phoneNumber), Some(f.collegeName),
                                  Some(SportsCountsOf(f.sportsToPlay)))
  }

  /**
   * With the intended body a filled-in form completes the registration of a
   * signed-in user: the route answers 200 and stores the name, phone
   * number, college and selected sports, after which the session reports
   * the user as registered.
   */
  lemma IntendedBodyCompletesRegistration(db: Db, email: string, f: FormData)
    requires WellFormed(db) && email != "" && UserByEmail(db.users, email).Some?
    requires f.name != "" && f.phoneNumber != "" && f.collegeName != ""
    ensures var (reply, db') := UserRegisterRoute.PostSpec(db, Some(email), Some(IntendedBody(f)));
      reply == Reply(200, None)
      && exists i :: (0 <= i < |db.users| && db.users[i].email == email
        && db'.users[i].name == f.name && db'.users[i].phoneNumber == Some(f.phoneNumber)
        && db'.users[i].collegeName == Some(f.collegeName)
        && db'.users[i].sports == Some(SportsCountsOf(f.sportsToPlay)))
  {
    UserRegisterRoute.SuccessWritesProfile(db, email, IntendedBody(f));
  }

  /** The component's state. */
  class Form {
    var colleges: seq<College>
    var isLoading: bool
    var error: string
    var formData: FormData

    function State(): FormState
      reads this
    {
      FormState(formData, error, isLoading)
    }

    constructor (userName: Option<string>)
      ensures colleges == [] && State() == FormState(InitialForm(userName), "", false)
    {
      colleges := [];
      isLoading := false;
      error := "";
      formData := InitialForm(userName);
    }

    method HandleSportsChange(sport: string, checked: bool)
      modifies this`formData
      ensures formData == SportsChange(old(formData), sport, checked)
    {
      if checked {
        formData := formData.(sportsToPlay := formData.sportsToPlay + [sport]);
      } else {
        formData := formData.(sportsToPlay := RemoveAll(formData.sportsToPlay, sport));
      }
    }

    method HandleCollegeChange(collegeId: string)
      modifies this`formData
      ensures formData == CollegeChange(old(formData), colleges, collegeId)
    {
      var selectedCollege := FindCollege(colleges, collegeId);
      if selectedCollege.Some? {
        formData := formData.(collegeName := selectedCollege.value.name,
                              collegeType := selectedCollege.value.collegeType);
      }
    }

    method HandleSubmit(outcome: FetchOutcome) returns (action: SubmitAction)
      modifies this
      ensures (action, State()) == SubmitSpec(old(State()), outcome)
      ensures colleges == old(colleges)
    {
      error := "";
      isLoading := true;
      if formData.sportsToPlay == [] {
        error := NoSportError;
        isLoading := false;
        return NoRequest;
      }
      match outcome {
        case Ok =>
          action := SentThenDashboard(formData);
        case NotOk(e) =>
          action := SentThenStay(formData);
          error := ErrorText(e, "Registration failed. Please try again.");
        case Threw =>
          action := SentThenStay(formData);
          error := GenericError;
      }
      isLoading := false;
    }
  }
}
