/**
 * The sports tab of `components/user-dashboard.tsx`: the label derived from
 * a camelCase sport key, the list of sports with participants, and the
 * choice between that list, the empty-state text and the "Profile Not
 * Found" card.
 */
module UserDashboard {
  import opened Common
  import opened Database

  // ---------------------------------------------------------------------------
  // The label: `sport.replace(/([A-Z])/g, ' $1').trim()`
  // ---------------------------------------------------------------------------

  /** `replace(/([A-Z])/g, ' $1')`: a space before every uppercase letter. */
  function Spaced(key: string): (r: string)
    ensures |r| == |key| + UpperCount(key)
  {
    if key == [] then []
    else (if IsUpper(key[0]) then [' ', key[0]] else [key[0]]) + Spaced(key[1..])
  }

  function UpperCount(s: string): nat
  {
    if s == [] then 0 else (if IsUpper(s[0]) then 1 else 0) + UpperCount(s[1..])
  }

  /** The label shown for a sport key. */
  function Label(key: string): string
  {
    Trim(Spaced(key))
  }

  /** The characters of a string other than spaces. */
  function Unspaced(s: string): (r: string)
  {
    Filter((c: char) => c != ' ', s)
  }

  predicate NoWhitespace(s: string)
  {
    forall i :: 0 <= i < |s| ==> !IsWhitespace(s[i])
  }

  /** Spacing a key adds spaces and nothing else. */
  lemma {:induction false} UnspacedSpaced(key: string)
    requires NoWhitespace(key)
    ensures Unspaced(Spaced(key)) == key
    ensures OnlySpaces(Spaced(key))
  {
    SpacedOnlySpaces(key);
    if key != [] {
      var head := if IsUpper(key[0]) then [' ', key[0]] else [key[0]];
      UnspacedSpaced(key[1..]);
      assert Spaced(key) == head + Spaced(key[1..]);
      UnspacedAppend(head, Spaced(key[1..]));
      UnspacedHead(key[0]);
      assert Unspaced(head) == [key[0]];
      assert Unspaced(Spaced(key)) == [key[0]] + key[1..];
      assert key == [key[0]] + key[1..];
    }
  }

  /** Dropping spaces distributes over concatenation. */
  lemma {:induction false} UnspacedAppend(a: string, b: string)
    ensures Unspaced(a + b) == Unspaced(a) + Unspaced(b)
  {
    FilterAppend((c: char) => c != ' ', a, b);
  }

  /** A character other than a space survives `Unspaced`, with or without a space before it. */
  lemma {:induction false} UnspacedHead(k: char)
    requires k != ' '
    ensures Unspaced([k]) == [k] && Unspaced([' ', k]) == [k]
  {
    assert [' ', k] == [' '] + [k];
    UnspacedAppend([' '], [k]);
  }

  /** The only whitespace that spacing a key without whitespace produces is the space. */
  lemma {:induction false} SpacedOnlySpaces(key: string)
    requires NoWhitespace(key)
    ensures OnlySpaces(Spaced(key))
  {
    if key != [] {
      var head := if IsUpper(key[0]) then [' ', key[0]] else [key[0]];
      SpacedOnlySpaces(key[1..]);
      assert Spaced(key) == head + Spaced(key[1..]);
      forall i | 0 <= i < |Spaced(key)| && IsWhitespace(Spaced(key)[i]) ensures Spaced(key)[i] == ' ' {
        if i >= |head| {
          assert Spaced(key)[i] == Spaced(key[1..])[i - |head|];
        }
      }
    }
  }

  predicate OnlySpaces(s: string)
  {
    forall i :: 0 <= i < |s| && IsWhitespace(s[i]) ==> s[i] == ' '
  }

  lemma {:induction false} UnspacedTrimStart(s: string)
    requires OnlySpaces(s)
    ensures Unspaced(TrimStart(s)) == Unspaced(s)
  {
    if s != [] && IsWhitespace(s[0]) {
      UnspacedTrimStart(s[1..]);
    }
  }

  lemma {:induction false} UnspacedTrimEnd(s: string)
    requires OnlySpaces(s)
    ensures Unspaced(TrimEnd(s)) == Unspaced(s)
    decreases |s|
  {
    if s != [] && IsWhitespace(s[|s| - 1]) {
      var init := s[..|s| - 1];
      assert s == init + [' '];
      UnspacedTrimEnd(init);
      FilterAppend((c: char) => c != ' ', init, [' ']);
    }
  }

  /** A suffix of a string whose only whitespace is spaces has no other whitespace either. */
  lemma {:induction false} TrimStartOnlySpaces(s: string)
    requires OnlySpaces(s)
    ensures OnlySpaces(TrimStart(s))
  {
    var t := TrimStart(s);
    forall i | 0 <= i < |t| && IsWhitespace(t[i]) ensures t[i] == ' ' {
      assert t[i] == s[|s| - |t| + i];
    }
  }

  /** Trimming a string whose only whitespace is spaces removes spaces and nothing else. */
  lemma {:induction false} UnspacedTrim(s: string)
    requires OnlySpaces(s)
    ensures Unspaced(Trim(s)) == Unspaced(s)
  {
    UnspacedTrimStart(s);
    TrimStartOnlySpaces(s);
    UnspacedTrimEnd(TrimStart(s));
  }

  /** Deleting the spaces from the label of a key without whitespace gives back the key. */
  lemma {:induction false} LabelRoundTrip(key: string)
    requires NoWhitespace(key)
    ensures Unspaced(Label(key)) == key
  {
    UnspacedSpaced(key);
    UnspacedTrim(Spaced(key));
  }

  /** Spacing works character by character. */
  lemma {:induction false} SpacedAppend(a: string, b: string)
    ensures Spaced(a + b) == Spaced(a) + Spaced(b)
  {
    if a == [] {
      assert a + b == b;
    } else {
      assert (a + b)[1..] == a[1..] + b;
      SpacedAppend(a[1..], b);
    }
  }

  /** A string without capitals is left as it is. */
  lemma {:induction false} SpacedNoUpper(s: string)
    requires forall i :: 0 <= i < |s| ==> !IsUpper(s[i])
    ensures Spaced(s) == s
  {
    if s != [] {
      SpacedNoUpper(s[1..]);
    }
  }

  /** Spacing keeps the last character of a key. */
  lemma {:induction false} SpacedLast(key: string)
    requires key != []
    ensures Spaced(key) != [] && Spaced(key)[|Spaced(key)| - 1] == key[|key| - 1]
  {
    var init := key[..|key| - 1];
    assert key == init + [key[|key| - 1]];
    SpacedAppend(init, [key[|key| - 1]]);
  }

  /**
   * A key that neither starts nor ends with whitespace and does not start
   * with a capital is labelled by its spaced form as it is: `trim` removes
   * nothing.
   */
  lemma {:induction false} LabelOfLowerStart(key: string)
    requires key != [] && !IsUpper(key[0]) && !IsWhitespace(key[0]) && !IsWhitespace(key[|key| - 1])
    ensures Label(key) == Spaced(key)
  {
    var spaced := Spaced(key);
    SpacedLast(key);
    assert spaced[0] == key[0];
    assert TrimStart(spaced) == spaced;
  }

  /** A key with a single capital gets a single space, placed before that capital. */
  lemma {:induction false} SpacedOneCapital(lower: string, capital: char, rest: string)
    requires forall i :: 0 <= i < |lower| ==> !IsUpper(lower[i])
    requires forall i :: 0 <= i < |rest| ==> !IsUpper(rest[i])
    requires IsUpper(capital)
    ensures Spaced(lower + [capital] + rest) == lower + [' ', capital] + rest
  {
    SpacedNoUpper(lower);
    SpacedNoUpper(rest);
    SpacedAppend(lower + [capital], rest);
    SpacedAppend(lower, [capital]);
    assert Spaced([capital]) == [' ', capital] + Spaced([]);
  }

  /** The spacing step on "badmintonMen". */
  lemma SpacedExample()
    ensures Spaced("badmintonMen") == "badminton Men"
  {
    assert "badmintonMen" == "badminton" + ['M'] + "en";
    SpacedOneCapital("badminton", 'M', "en");
    assert "badminton" + [' ', 'M'] + "en" == "badminton Men";
  }

  /** "badmintonMen" is labelled "badminton Men". */
  lemma LabelExample()
    ensures Label("badmintonMen") == "badminton Men"
  {
    SpacedExample();
    var key := "badmintonMen";
    assert key[0] == 'b' && key[|key| - 1] == 'n';
    LabelOfLowerStart(key);
  }

  /** A key that starts with a capital loses the space inserted before it. */
  lemma {:induction false} LeadingCapital(key: string)
    requires key != [] && IsUpper(key[0])
    ensures Spaced(key)[0] == ' ' && !IsWhitespace(Spaced(key)[1])
    ensures TrimStart(Spaced(key)) == Spaced(key)[1..]
  {
    assert Spaced(key)[1] == key[0];
  }

  // ---------------------------------------------------------------------------
  // The list and the empty state
  // ---------------------------------------------------------------------------

  predicate HasParticipants(entry: (string, int))
  {
    entry.1 > 0
  }

  /** `Object.entries(sports).filter(([, count]) => count > 0)` */
  function Listed(sports: SportsCounts): seq<(string, int)>
  {
    Filter(HasParticipants, sports)
  }

  /** Exactly the sports with a positive count are listed, in entry order. */
  lemma {:induction false} ListedProperties(sports: SportsCounts, more: SportsCounts)
    ensures forall i :: 0 <= i < |Listed(sports)| ==> Listed(sports)[i] in sports && Listed(sports)[i].1 > 0
    ensures forall i :: 0 <= i < |sports| && sports[i].1 > 0 ==> sports[i] in Listed(sports)
    ensures Listed(sports + more) == Listed(sports) + Listed(more)
  {
    FilterAppend(HasParticipants, sports, more);
  }

  /** `!userData.sports || Object.values(userData.sports).every(count => count === 0)` */
  predicate EmptyState(sports: Option<SportsCounts>)
  {
    sports.None? || forall i :: 0 <= i < |sports.value| ==> sports.value[i].1 == 0
  }

  /** For counts that are never negative the empty-state text shows exactly when no sport is listed. */
  lemma {:induction false} EmptyStateIffNothingListed(sports: SportsCounts)
    requires forall i :: 0 <= i < |sports| ==> sports[i].1 >= 0
    ensures EmptyState(Some(sports)) <==> Listed(sports) == []
  {
    if !EmptyState(Some(sports)) {
      var i :| 0 <= i < |sports| && sports[i].1 != 0;
      assert sports[i] in Listed(sports);
    } else {
      NothingPositiveNothingListed(sports);
    }
  }

  lemma {:induction false} NothingPositiveNothingListed(sports: SportsCounts)
    requires forall i :: 0 <= i < |sports| ==> sports[i].1 <= 0
    ensures Listed(sports) == []
  {
    if sports != [] {
      NothingPositiveNothingListed(sports[1..]);
    }
  }

  /**
   * A negative count (the route stores whatever object it receives) makes
   * the tab show neither the empty-state text nor any sport.
   */
  lemma NegativeCountShowsNothing()
    ensures !EmptyState(Some([("football", -1)])) && Listed([("football", -1)]) == []
  {
    NothingPositiveNothingListed([("football", -1)]);
  }

  /** The empty state as the list it guards: no sport has a positive count. */
  predicate EmptyStateIntended(sports: Option<SportsCounts>)
  {
    sports.None? || forall i :: 0 <= i < |sports.value| ==> sports.value[i].1 <= 0
  }

  /** With that test the tab shows the text exactly when it lists no sport, whatever the counts. */
  lemma {:induction false} EmptyStateIntendedIffNothingListed(sports: SportsCounts)
    ensures EmptyStateIntended(Some(sports)) <==> Listed(sports) == []
    ensures (forall i :: 0 <= i < |sports| ==> sports[i].1 >= 0) ==>
      (EmptyStateIntended(Some(sports)) <==> EmptyState(Some(sports)))
  {
    if !EmptyStateIntended(Some(sports)) {
      var i :| 0 <= i < |sports| && sports[i].1 > 0;
      assert sports[i] in Listed(sports);
    } else {
      NothingPositiveNothingListed(sports);
    }
  }

  // ---------------------------------------------------------------------------
  // What the component renders
  // ---------------------------------------------------------------------------

  /** The profile fields the dashboard reads. */
  datatype UserData = UserData(name: string, email: string, phoneNumber: string, collegeName: string,
                               sports: Option<SportsCounts>)

  datatype SportsTab = NoParticipants | Participants(entries: seq<(string, string, int)>)

  datatype View = Spinner | ProfileNotFound | Dashboard(welcome: string, sportsTab: SportsTab)

  /** The sports tab: the empty-state text, or a card per listed sport with its label and count. */
  function SportsTabOf(sports: Option<SportsCounts>): (t: SportsTab)
    ensures t.NoParticipants? <==> EmptyState(sports)
    ensures t.Participants? ==> |t.entries| == |Listed(sports.value)|
    ensures t.Participants? ==> forall i :: 0 <= i < |t.entries| ==>
      t.entries[i] == (Listed(sports.value)[i].0, Label(Listed(sports.value)[i].0), Listed(sports.value)[i].1)
  {
    if EmptyState(sports) then NoParticipants
    else
      var listed := Listed(sports.value);
      Participants(seq(|listed|, i requires 0 <= i < |listed| => (listed[i].0, Label(listed[i].0), listed[i].1)))
  }

  /**
   * Each card's label gives its sport key back once its spaces are removed,
   * and shows that sport's count, when no key contains whitespace.
   */
  lemma {:induction false} CardsShowKeysAndCounts(sports: SportsCounts)
    requires forall k :: 0 <= k < |sports| ==> NoWhitespace(sports[k].0)
    ensures var t := SportsTabOf(Some(sports));
      t.Participants? ==> forall i :: 0 <= i < |t.entries| ==>
        Unspaced(t.entries[i].1) == t.entries[i].0 && (t.entries[i].0, t.entries[i].2) in sports
        && t.entries[i].2 > 0
  {
    var t := SportsTabOf(Some(sports));
    if t.Participants? {
      var listed := Listed(sports);
      ListedProperties(sports, []);
      forall i | 0 <= i < |t.entries|
        ensures Unspaced(t.entries[i].1) == t.entries[i].0 && (t.entries[i].0, t.entries[i].2) in sports
                && t.entries[i].2 > 0
      {
        assert t.entries[i] == (listed[i].0, Label(listed[i].0), listed[i].1);
        assert listed[i] in sports;
        var k :| 0 <= k < |sports| && sports[k] == listed[i];
        LabelRoundTrip(listed[i].0);
      }
    }
  }

  /** The component's output for its loading flag and the fetched profile (`None` for `null`). */
  function Render(isLoading: bool, userData: Option<UserData>): (v: View)
    ensures isLoading ==> v == Spinner
    ensures !isLoading && userData.None? ==> v == ProfileNotFound
    ensures v.Dashboard? ==> userData.Some? && v.sportsTab == SportsTabOf(userData.value.sports)
    ensures !isLoading && userData.Some? ==>
      v == Dashboard("Welcome, " + userData.value.name + "!", SportsTabOf(userData.value.sports))
  {
    if isLoading then Spinner
    else if userData.None? then ProfileNotFound
    else Dashboard("Welcome, " + userData.value.name + "!", SportsTabOf(userData.value.sports))
  }
}
