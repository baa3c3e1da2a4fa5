/**
 * Value-level helpers shared by every module of the model: an Option type,
 * JavaScript truthiness of optional strings, and the handful of string and
 * sequence operations the site's code relies on (`startsWith`, `includes`,
 * `toLowerCase`, `trim`, `join`, `filter`).
 *
 * Strings are sequences of characters; `toLowerCase` and `trim` are modelled
 * over ASCII only.
 */
module Common {

  datatype Option<+T> = None | Some(value: T)

  /** JavaScript truthiness of a string that may be absent: `undefined`, `null` and `""` are falsy. */
  predicate Truthy(s: Option<string>)
  {
    s.Some? && s.value != ""
  }

  /** `Array.prototype.join` renders a missing value as the empty string. */
  function OrEmpty(s: Option<string>): string
  {
    if s.Some? then s.value else ""
  }

  function Max(a: int, b: int): int
  {
    if a >= b then a else b
  }

  /** A JSON reply of a route handler: its HTTP status, and the `error` field when there is one. */
  datatype Reply = Reply(status: nat, error: Option<string>)

  // ---------------------------------------------------------------------------
  // Prefixes and substrings
  // ---------------------------------------------------------------------------

  /** `s.startsWith(prefix)` */
  predicate StartsWith(s: string, prefix: string)
  {
    |prefix| <= |s| && s[..|prefix|] == prefix
  }

  /** `s.includes(sub)`: `sub` occurs at some position of `s`. */
  predicate Contains(s: string, sub: string)
    decreases |s|
  {
    StartsWith(s, sub) || (|s| > 0 && Contains(s[1..], sub))
  }

  /** `sub` occurs in `s` starting at index `k`. */
  predicate OccursAt(s: string, sub: string, k: int)
  {
    0 <= k && k + |sub| <= |s| && s[k..k + |sub|] == sub
  }

  /** `Contains` means exactly that the substring occurs at some index. */
  lemma {:induction false} ContainsIffOccurs(s: string, sub: string)
    ensures Contains(s, sub) <==> exists k :: OccursAt(s, sub, k)
    decreases |s|
  {
    if StartsWith(s, sub) {
      assert OccursAt(s, sub, 0);
    } else if |s| == 0 {
      assert !exists k :: OccursAt(s, sub, k);
    } else {
      ContainsIffOccurs(s[1..], sub);
      if Contains(s, sub) {
        var k :| OccursAt(s[1..], sub, k);
        assert s[k + 1..k + 1 + |sub|] == s[1..][k..k + |sub|];
        assert OccursAt(s, sub, k + 1);
      } else {
        forall k | 0 < k && OccursAt(s, sub, k) ensures OccursAt(s[1..], sub, k - 1) {
          assert s[1..][k - 1..k - 1 + |sub|] == s[k..k + |sub|];
        }
      }
    }
  }

  /** Every string includes the empty string, so an empty search term keeps everything. */
  lemma ContainsEmpty(s: string)
    ensures Contains(s, "")
  {
    assert StartsWith(s, "");
  }

  // ---------------------------------------------------------------------------
  // toLowerCase and trim (ASCII)
  // ---------------------------------------------------------------------------

  function LowerChar(c: char): char
  {
    if 'A' <= c <= 'Z' then (c as int + 32) as char else c
  }

  /** `s.toLowerCase()` over ASCII letters. */
  function Lower(s: string): (r: string)
    ensures |r| == |s|
    ensures forall i :: 0 <= i < |s| ==> r[i] == LowerChar(s[i])
  {
    seq(|s|, i requires 0 <= i < |s| => LowerChar(s[i]))
  }

  predicate IsUpper(c: char)
  {
    'A' <= c <= 'Z'
  }

  /** The characters `String.prototype.trim` strips, restricted to ASCII. */
  predicate IsWhitespace(c: char)
  {
    c == ' ' || c == '\t' || c == '\n' || c == '\r' || c == '\U{000B}' || c == '\U{000C}'
  }

  function TrimStart(s: string): (r: string)
    ensures |r| <= |s| && r == s[|s| - |r|..]
    ensures r != [] ==> !IsWhitespace(r[0])
    ensures forall i :: 0 <= i < |s| - |r| ==> IsWhitespace(s[i])
  {
    if s != [] && IsWhitespace(s[0]) then TrimStart(s[1..]) else s
  }

  function TrimEnd(s: string): (r: string)
    ensures |r| <= |s| && r == s[..|r|]
    ensures r != [] ==> !IsWhitespace(r[|r| - 1])
    ensures forall i :: |r| <= i < |s| ==> IsWhitespace(s[i])
  {
    if s != [] && IsWhitespace(s[|s| - 1]) then TrimEnd(s[..|s| - 1]) else s
  }

  /** `s.trim()` */
  function Trim(s: string): string
  {
    TrimEnd(TrimStart(s))
  }

  /** A string is blank exactly when it consists of whitespace only. */
  lemma {:induction false} TrimEmptyIffBlank(s: string)
    ensures Trim(s) == "" <==> forall i :: 0 <= i < |s| ==> IsWhitespace(s[i])
  {
    var t := TrimStart(s);
    if Trim(s) == "" {
      assert |t| == 0;
    } else {
      var r := Trim(s);
      assert t[0] == r[0];
      assert s[|s| - |t|] == t[0];
    }
  }

  // ---------------------------------------------------------------------------
  // Counting characters
  // ---------------------------------------------------------------------------

  function Count(c: char, s: string): nat
  {
    if s == [] then 0 else (if s[0] == c then 1 else 0) + Count(c, s[1..])
  }

  lemma {:induction false} CountAppend(c: char, a: string, b: string)
    ensures Count(c, a + b) == Count(c, a) + Count(c, b)
  {
    if a == [] {
      assert a + b == b;
    } else {
      assert (a + b)[1..] == a[1..] + b;
      CountAppend(c, a[1..], b);
    }
  }

  /** Total number of occurrences of `c` in all the parts. */
  function CountAll(c: char, parts: seq<string>): nat
  {
    if parts == [] then 0 else Count(c, parts[0]) + CountAll(c, parts[1..])
  }

  // ---------------------------------------------------------------------------
  // join
  // ---------------------------------------------------------------------------

  /** `parts.join(sep)` */
  function Join(sep: string, parts: seq<string>): string
  {
    if |parts| == 0 then ""
    else if |parts| == 1 then parts[0]
    else parts[0] + sep + Join(sep, parts[1..])
  }

  /**
   * Joining adds exactly the separators between parts and nothing else: the
   * number of occurrences of any character is that of the parts plus one
   * separator's worth per gap.
   */
  lemma {:induction false} JoinCount(c: char, sep: string, parts: seq<string>)
    requires |parts| > 0
    ensures Count(c, Join(sep, parts)) == (|parts| - 1) * Count(c, sep) + CountAll(c, parts)
  {
    if |parts| > 1 {
      JoinCount(c, sep, parts[1..]);
      CountAppend(c, parts[0] + sep, Join(sep, parts[1..]));
      CountAppend(c, parts[0], sep);
      assert CountAll(c, parts) == Count(c, parts[0]) + CountAll(c, parts[1..]);
    } else {
      assert CountAll(c, parts) == Count(c, parts[0]) + CountAll(c, parts[1..]);
    }
  }

  /** A character that does not occur is not counted. */
  lemma {:induction false} CountAbsent(c: char, s: string)
    requires c !in s
    ensures Count(c, s) == 0
  {
    if s != [] {
      assert forall x :: x in s[1..] ==> x in s;
      CountAbsent(c, s[1..]);
    }
  }

  /** A character absent from the separator and from every part is absent from the join. */
  lemma {:induction false} JoinAvoids(c: char, sep: string, parts: seq<string>)
    requires c !in sep
    requires forall i :: 0 <= i < |parts| ==> c !in parts[i]
    ensures c !in Join(sep, parts)
  {
    if |parts| > 1 {
      JoinAvoids(c, sep, parts[1..]);
    }
  }

  // ---------------------------------------------------------------------------
  // split, the inverse of join
  // ---------------------------------------------------------------------------

  /** `s.indexOf(c)` */
  function IndexOf(s: string, c: char): (k: int)
    ensures -1 <= k < |s|
    ensures k >= 0 ==> s[k] == c && forall j :: 0 <= j < k ==> s[j] != c
    ensures k < 0 ==> c !in s
  {
    if s == [] then -1
    else if s[0] == c then 0
    else
      var k := IndexOf(s[1..], c);
      if k < 0 then -1 else k + 1
  }

  /** `s.split(c)` for a one-character separator. */
  function Split(s: string, c: char): (r: seq<string>)
    ensures |r| >= 1
    decreases |s|
  {
    var k := IndexOf(s, c);
    if k < 0 then [s] else [s[..k]] + Split(s[k + 1..], c)
  }

  /** Splitting yields one more piece than there are separators. */
  lemma {:induction false} SplitCount(s: string, c: char)
    ensures |Split(s, c)| == Count(c, s) + 1
    decreases |s|
  {
    var k := IndexOf(s, c);
    if k < 0 {
      CountAbsent(c, s);
    } else {
      SplitCount(s[k + 1..], c);
      assert s == s[..k] + ([s[k]] + s[k + 1..]);
      CountAppend(c, s[..k], [s[k]] + s[k + 1..]);
      CountAppend(c, [s[k]], s[k + 1..]);
      assert c !in s[..k];
      CountAbsent(c, s[..k]);
      assert Count(c, [s[k]]) == 1 + Count(c, []);
    }
  }

  /** A piece free of the separator, followed by the separator, splits off as the first piece. */
  lemma {:induction false} SplitFirst(head: string, c: char, rest: string)
    requires c !in head
    ensures Split(head + [c] + rest, c) == [head] + Split(rest, c)
  {
    var s := head + [c] + rest;
    assert s[|head|] == c;
    assert forall j :: 0 <= j < |head| ==> s[j] == head[j];
    var k := IndexOf(s, c);
    assert k == |head|;
    assert s[..k] == head;
    assert s[k + 1..] == rest;
  }

  /** Round trip: splitting a join recovers the parts, provided no part contains the separator. */
  lemma {:induction false} SplitJoin(parts: seq<string>, c: char)
    requires |parts| > 0
    requires forall i :: 0 <= i < |parts| ==> c !in parts[i]
    ensures Split(Join([c], parts), c) == parts
  {
    if |parts| == 1 {
      assert IndexOf(parts[0], c) < 0;
    } else {
      var rest := Join([c], parts[1..]);
      assert Join([c], parts) == parts[0] + [c] + rest;
      SplitFirst(parts[0], c, rest);
      assert c !in parts[0];
      SplitJoin(parts[1..], c);
      assert parts == [parts[0]] + parts[1..];
    }
  }

  // ---------------------------------------------------------------------------
  // filter
  // ---------------------------------------------------------------------------

  /** `s.filter(p)`: the elements satisfying `p`, in their original order. */
  function Filter<T>(p: T -> bool, s: seq<T>): (r: seq<T>)
    ensures |r| <= |s|
    ensures forall i :: 0 <= i < |r| ==> p(r[i]) && r[i] in s
    ensures forall i :: 0 <= i < |s| && p(s[i]) ==> s[i] in r
  {
    if s == [] then []
    else if p(s[0]) then [s[0]] + Filter(p, s[1..])
    else Filter(p, s[1..])
  }

  /** Filtering distributes over concatenation, so it keeps the relative order of what it keeps. */
  lemma {:induction false} FilterAppend<T>(p: T -> bool, a: seq<T>, b: seq<T>)
    ensures Filter(p, a + b) == Filter(p, a) + Filter(p, b)
  {
    if a == [] {
      assert a + b == b;
    } else {
      assert (a + b)[1..] == a[1..] + b;
      FilterAppend(p, a[1..], b);
    }
  }

  /** One step of `FilterSplit`: the first element goes to exactly one of the two filters. */
  lemma {:induction false} FilterSplitStep<T>(p: T -> bool, q: T -> bool, s: seq<T>)
    requires s != [] && q(s[0]) == !p(s[0])
    ensures multiset(Filter(p, s)) + multiset(Filter(q, s))
      == multiset{s[0]} + (multiset(Filter(p, s[1..])) + multiset(Filter(q, s[1..])))
  {
    if p(s[0]) {
      assert Filter(p, s) == [s[0]] + Filter(p, s[1..]);
      assert Filter(q, s) == Filter(q, s[1..]);
    } else {
      assert Filter(p, s) == Filter(p, s[1..]);
      assert Filter(q, s) == [s[0]] + Filter(q, s[1..]);
    }
  }

  /** A multiset sum that splits the tail of a sequence, plus its head, splits the whole sequence. */
  lemma {:induction false} MultisetCons<T>(s: seq<T>, whole: multiset<T>, tail: multiset<T>)
    requires s != []
    requires tail == multiset(s[1..]) && whole == multiset{s[0]} + tail
    ensures whole == multiset(s)
  {
    assert s == [s[0]] + s[1..];
  }

  /** A filter and the filter by the negated predicate split the input into two parts. */
  lemma {:induction false} FilterSplit<T>(p: T -> bool, q: T -> bool, s: seq<T>)
    requires forall x :: q(x) == !p(x)
    ensures multiset(Filter(p, s)) + multiset(Filter(q, s)) == multiset(s)
  {
    if s != [] {
      FilterSplit(p, q, s[1..]);
      FilterSplitStep(p, q, s);
      MultisetCons(s, multiset(Filter(p, s)) + multiset(Filter(q, s)),
                   multiset(Filter(p, s[1..])) + multiset(Filter(q, s[1..])));
    }
  }

  /** A filter that keeps no element gives the empty sequence. */
  lemma {:induction false} FilterKeepsNone<T>(p: T -> bool, s: seq<T>)
    requires forall i :: 0 <= i < |s| ==> !p(s[i])
    ensures Filter(p, s) == []
  {
    if s != [] {
      FilterKeepsNone(p, s[1..]);
    }
  }

  /** A filter that keeps exactly one element gives that element alone. */
  lemma {:induction false} FilterKeepsOne<T>(p: T -> bool, s: seq<T>, u: nat)
    requires u < |s| && p(s[u])
    requires forall j :: 0 <= j < |s| && j != u ==> !p(s[j])
    ensures Filter(p, s) == [s[u]]
  {
    assert s == s[..u] + ([s[u]] + s[u + 1..]);
    FilterAppend(p, s[..u], [s[u]] + s[u + 1..]);
    FilterAppend(p, [s[u]], s[u + 1..]);
    FilterKeepsNone(p, s[..u]);
    FilterKeepsNone(p, s[u + 1..]);
    assert Filter(p, [s[u]]) == [s[u]] + Filter(p, []);
  }

  /** A filter that keeps every element is the identity. */
  lemma {:induction false} FilterKeepsAll<T>(p: T -> bool, s: seq<T>)
    requires forall i :: 0 <= i < |s| ==> p(s[i])
    ensures Filter(p, s) == s
  {
    if s != [] {
      FilterKeepsAll(p, s[1..]);
      assert s == [s[0]] + s[1..];
    }
  }

  /** `s.filter(y => y !== x)`: every occurrence of `x` removed. */
  function RemoveAll<T(==)>(s: seq<T>, x: T): (r: seq<T>)
    ensures x !in r
    ensures forall i :: 0 <= i < |s| && s[i] != x ==> s[i] in r
    ensures forall i :: 0 <= i < |r| ==> r[i] in s
  {
    Filter(y => y != x, s)
  }

  /** Removing an element distributes over concatenation. */
  lemma RemoveAllAppend<T>(a: seq<T>, b: seq<T>, x: T)
    ensures RemoveAll(a + b, x) == RemoveAll(a, x) + RemoveAll(b, x)
  {
    FilterAppend(y => y != x, a, b);
  }

  /** Removing an element that does not occur changes nothing. */
  lemma RemoveAllAbsent<T>(s: seq<T>, x: T)
    requires x !in s
    ensures RemoveAll(s, x) == s
  {
    FilterKeepsAll(y => y != x, s);
  }

  /** Removing `x` removes exactly the copies of `x`: every other element keeps its multiplicity. */
  lemma {:induction false} RemoveAllCounts<T>(s: seq<T>, x: T, y: T)
    requires y != x
    ensures multiset(RemoveAll(s, x))[y] == multiset(s)[y]
    ensures multiset(RemoveAll(s, x))[x] == 0
  {
    if s != [] {
      RemoveAllCounts(s[1..], x, y);
      assert s == [s[0]] + s[1..];
      RemoveAllAppend([s[0]], s[1..], x);
    }
  }

  // ---------------------------------------------------------------------------
  // Decimal rendering of integers (template literals and `toString`)
  // ---------------------------------------------------------------------------

  function DigitChar(d: nat): char
    requires d < 10
  {
    "0123456789"[d]
  }

  function NatToString(n: nat): (r: string)
    ensures |r| > 0
    ensures forall i :: 0 <= i < |r| ==> '0' <= r[i] <= '9'
  {
    if n < 10 then [DigitChar(n)] else NatToString(n / 10) + [DigitChar(n % 10)]
  }

  /** `${n}` for an integer `n`. */
  function IntToString(n: int): (r: string)
    ensures |r| > 0
  {
    if n < 0 then "-" + NatToString(-n) else NatToString(n)
  }
}
