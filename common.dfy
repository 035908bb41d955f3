/** Helpers shared by every component: optional values, the list operations the
    TypeScript code reaches for (filter, reduce-sum, sort, slice) and the string
    operations of JavaScript it relies on (trim, toLowerCase, includes,
    startsWith, split). */
module Common {

  datatype Option<+T> = None | Some(value: T)

  /** JavaScript truthiness of an optional string: absent, null and "" are falsy. */
  predicate Truthy(s: Option<string>) {
    s.Some? && s.value != ""
  }

  // ---------------------------------------------------------------------------
  // Lists

  /** Array.prototype.filter: the elements satisfying p, in their original order. */
  function Filter<T>(s: seq<T>, p: T -> bool): (r: seq<T>)
    ensures |r| <= |s|
    ensures forall i :: 0 <= i < |r| ==> r[i] in s && p(r[i])
    ensures forall i :: 0 <= i < |s| && p(s[i]) ==> s[i] in r
  {
    if s == [] then []
    else if p(s[0]) then [s[0]] + Filter(s[1..], p)
    else Filter(s[1..], p)
  }

  lemma {:induction false} FilterAppend<T>(a: seq<T>, b: seq<T>, p: T -> bool)
    ensures Filter(a + b, p) == Filter(a, p) + Filter(b, p)
  {
    if a == [] {
      assert a + b == b;
    } else {
      assert (a + b)[1..] == a[1..] + b;
      FilterAppend(a[1..], b, p);
    }
  }

  /** Filtering a list extended by one element extends the filtered list by that
      element exactly when it passes. */
  lemma FilterSnoc<T>(a: seq<T>, x: T, p: T -> bool)
    ensures Filter(a + [x], p) == Filter(a, p) + (if p(x) then [x] else [])
  {
    FilterAppend(a, [x], p);
    assert [x][1..] == [];
  }

  /** ix lists, in increasing order, exactly the positions of s whose element
      satisfies p. */
  predicate Passing<T>(s: seq<T>, p: T -> bool, ix: seq<nat>) {
    && (forall k :: 0 <= k < |ix| ==> ix[k] < |s| && p(s[ix[k]]))
    && (forall k, l :: 0 <= k < l < |ix| ==> ix[k] < ix[l])
    && (forall i :: 0 <= i < |s| && p(s[i]) ==> i in ix)
  }

  /** The positions of s whose element satisfies p, in increasing order. */
  function PassingIndices<T>(s: seq<T>, p: T -> bool): (ix: seq<nat>)
    ensures Passing(s, p, ix)
  {
    if s == [] then []
    else
      var rest := PassingIndices(s[1..], p);
      ShiftPassing(s, p, rest);
      if p(s[0]) then [0] + Shift(rest) else Shift(rest)
  }

  function Shift(ix: seq<nat>): (r: seq<nat>)
    ensures |r| == |ix| && forall k :: 0 <= k < |ix| ==> r[k] == ix[k] + 1
  {
    seq(|ix|, k requires 0 <= k < |ix| => ix[k] + 1)
  }

  lemma ShiftPassing<T>(s: seq<T>, p: T -> bool, rest: seq<nat>)
    requires s != [] && Passing(s[1..], p, rest)
    ensures Passing(s, p, if p(s[0]) then [0] + Shift(rest) else Shift(rest))
  {
    ShiftKeepsPositions(s, p, rest);
    if p(s[0]) {
      PrependZero(s, p, Shift(rest));
    }
  }

  lemma PrependZero<T>(s: seq<T>, p: T -> bool, sh: seq<nat>)
    requires s != [] && p(s[0])
    requires forall k :: 0 <= k < |sh| ==> 0 < sh[k] < |s| && p(s[sh[k]])
    requires forall k, l :: 0 <= k < l < |sh| ==> sh[k] < sh[l]
    requires forall i :: 0 < i < |s| && p(s[i]) ==> i in sh
    ensures Passing(s, p, [0] + sh)
  {
    var ix := [0] + sh;
    assert forall k :: 0 < k < |ix| ==> ix[k] == sh[k - 1];
    forall i | 0 <= i < |s| && p(s[i])
      ensures i in ix
    {
      if i == 0 {
        assert ix[0] == 0;
      } else {
        var k :| 0 <= k < |sh| && sh[k] == i;
        assert ix[k + 1] == i;
      }
    }
  }

  /** Shifting the passing positions of s[1..] by one gives passing positions of
      s, covering every passing position but 0. */
  lemma ShiftKeepsPositions<T>(s: seq<T>, p: T -> bool, rest: seq<nat>)
    requires s != [] && Passing(s[1..], p, rest)
    ensures var sh := Shift(rest);
      && (forall k :: 0 <= k < |sh| ==> 0 < sh[k] < |s| && p(s[sh[k]]))
      && (forall k, l :: 0 <= k < l < |sh| ==> sh[k] < sh[l])
      && (forall i :: 0 < i < |s| && p(s[i]) ==> i in sh)
  {
    var sh := Shift(rest);
    forall k | 0 <= k < |sh|
      ensures 0 < sh[k] < |s| && p(s[sh[k]])
    {
      assert s[1..][rest[k]] == s[sh[k]];
    }
    forall i | 0 < i < |s| && p(s[i])
      ensures i in sh
    {
      assert s[1..][i - 1] == s[i];
      var k :| 0 <= k < |rest| && rest[k] == i - 1;
      assert sh[k] == i;
    }
  }

  /** Only one list of positions is Passing: the positions that pass, in order. */
  lemma PassingUnique<T>(s: seq<T>, p: T -> bool, a: seq<nat>, b: seq<nat>)
    requires Passing(s, p, a) && Passing(s, p, b)
    ensures a == b
  {
    forall k | 0 <= k < |a| && k < |b|
      ensures a[k] == b[k]
    {
      PassingAgreeAt(s, p, a, b, k);
    }
    if |b| > 0 {
      IndexBound(s, p, a, b, |b| - 1);
    }
    if |a| > 0 {
      IndexBound(s, p, b, a, |a| - 1);
    }
  }

  /** When two Passing lists agree on their common prefix, the j-th position of
      one is also found at index j or later in the other. */
  lemma IndexBound<T>(s: seq<T>, p: T -> bool, a: seq<nat>, b: seq<nat>, j: nat)
    requires Passing(s, p, a) && Passing(s, p, b) && j < |b|
    requires forall k :: 0 <= k < |a| && k < |b| ==> a[k] == b[k]
    ensures j < |a|
  {
    assert b[j] in a;
    var m :| 0 <= m < |a| && a[m] == b[j];
    assert forall i :: 0 <= i < j && i < |a| ==> a[i] < b[j];
  }

  lemma {:induction false} PassingAgreeAt<T>(s: seq<T>, p: T -> bool, a: seq<nat>, b: seq<nat>, k: nat)
    requires Passing(s, p, a) && Passing(s, p, b) && k < |a| && k < |b|
    ensures a[k] == b[k]
    decreases k
  {
    forall j | 0 <= j < k
      ensures a[j] == b[j]
    {
      PassingAgreeAt(s, p, a, b, j);
    }
    if a[k] < b[k] {
      assert false;
    } else if b[k] < a[k] {
      assert false;
    }
  }

  /** filter keeps exactly the elements that satisfy p, in their order: the
      k-th kept element is the one at the k-th passing position. */
  lemma {:induction false} FilterPicksPassing<T>(s: seq<T>, p: T -> bool)
    ensures var r := Filter(s, p); var ix := PassingIndices(s, p);
      |r| == |ix| && forall k :: 0 <= k < |r| ==> r[k] == s[ix[k]]
  {
    if s != [] {
      FilterPicksPassing(s[1..], p);
      var t, rest := Filter(s[1..], p), PassingIndices(s[1..], p);
      assert Filter(s, p) == if p(s[0]) then [s[0]] + t else t;
      assert PassingIndices(s, p) == if p(s[0]) then [0] + Shift(rest) else Shift(rest);
      PicksStep(s, p(s[0]), t, rest);
    }
  }

  /** One step of FilterPicksPassing: prepending s[0] (when it passes) to what
      s[1..] keeps matches prepending position 0 to its shifted positions. */
  lemma PicksStep<T>(s: seq<T>, keep: bool, t: seq<T>, rest: seq<nat>)
    requires s != [] && |t| == |rest|
    requires forall k :: 0 <= k < |t| ==> rest[k] < |s| - 1 && t[k] == s[1..][rest[k]]
    ensures var r := if keep then [s[0]] + t else t;
      var ix := if keep then [0] + Shift(rest) else Shift(rest);
      |r| == |ix| && forall k :: 0 <= k < |r| ==> ix[k] < |s| && r[k] == s[ix[k]]
  {
    var sh := Shift(rest);
    assert forall k :: 0 <= k < |t| ==> t[k] == s[sh[k]];
    if keep {
      var r, ix := [s[0]] + t, [0] + sh;
      forall k | 0 <= k < |r|
        ensures ix[k] < |s| && r[k] == s[ix[k]]
      {
        if k > 0 {
          assert r[k] == t[k - 1] && ix[k] == sh[k - 1];
        }
      }
    }
  }

  /** Filtering with predicates that agree on every element gives the same list. */
  lemma {:induction false} FilterAgree<T>(s: seq<T>, p: T -> bool, q: T -> bool)
    requires forall i :: 0 <= i < |s| ==> p(s[i]) == q(s[i])
    ensures Filter(s, p) == Filter(s, q)
  {
    if s != [] {
      FilterAgree(s[1..], p, q);
    }
  }

  /** Filtering with a predicate every element satisfies returns the list itself. */
  lemma {:induction false} FilterAll<T>(s: seq<T>, p: T -> bool)
    requires forall i :: 0 <= i < |s| ==> p(s[i])
    ensures Filter(s, p) == s
  {
    if s != [] {
      FilterAll(s[1..], p);
    }
  }

  /** Filtering with a predicate that fails on index k only removes exactly that
      element and keeps the others in order. */
  lemma {:induction false} FilterDropsOne<T>(s: seq<T>, p: T -> bool, k: nat)
    requires k < |s|
    requires !p(s[k])
    requires forall i :: 0 <= i < |s| && i != k ==> p(s[i])
    ensures Filter(s, p) == s[..k] + s[k + 1..]
  {
    var t := s[1..];
    if k == 0 {
      assert forall i :: 0 <= i < |t| ==> p(t[i]) by {
        forall i | 0 <= i < |t| ensures p(t[i]) { assert t[i] == s[i + 1]; }
      }
      FilterAll(t, p);
    } else {
      assert forall i :: 0 <= i < |t| && i != k - 1 ==> p(t[i]) by {
        forall i | 0 <= i < |t| && i != k - 1 ensures p(t[i]) { assert t[i] == s[i + 1]; }
      }
      assert t[k - 1] == s[k];
      FilterDropsOne(t, p, k - 1);
      assert p(s[0]);
      assert t[..k - 1] == s[1..k];
      assert t[k..] == s[k + 1..];
      assert [s[0]] + s[1..k] == s[..k];
    }
  }

  /** Array.prototype.findIndex as an option: the first index whose element satisfies
      p, or None when no element does. */
  function FindFirst<T>(s: seq<T>, p: T -> bool): (r: Option<nat>)
    ensures r.Some? ==> r.value < |s| && p(s[r.value])
    ensures r.Some? ==> forall j :: 0 <= j < r.value ==> !p(s[j])
    ensures r.None? <==> forall j :: 0 <= j < |s| ==> !p(s[j])
  {
    if s == [] then None
    else if p(s[0]) then Some(0)
    else
      match FindFirst(s[1..], p)
      case None => None
      case Some(k) => Some(k + 1)
  }

  /** The first element filter keeps is the one find returns. */
  lemma {:induction false} FilterHeadIsFirst<T>(s: seq<T>, p: T -> bool)
    ensures Filter(s, p) != [] <==> FindFirst(s, p).Some?
    ensures Filter(s, p) != [] ==> Filter(s, p)[0] == s[FindFirst(s, p).value]
  {
    if s != [] && !p(s[0]) {
      FilterHeadIsFirst(s[1..], p);
    }
  }

  /** The first index whose element satisfies p is what FindFirst returns. */
  lemma FindFirstAt<T>(s: seq<T>, p: T -> bool, k: nat)
    requires k < |s| && p(s[k])
    requires forall j :: 0 <= j < k ==> !p(s[j])
    ensures FindFirst(s, p) == Some(k)
  {
  }

  /** The scan behind find, findIndex and a database lookup by key: walks the
      list until an element satisfies p. */
  method Find<T>(s: seq<T>, p: T -> bool) returns (k: Option<nat>)
    ensures k == FindFirst(s, p)
  {
    var i := 0;
    while i < |s| && !p(s[i])
      invariant 0 <= i <= |s|
      invariant forall j :: 0 <= j < i ==> !p(s[j])
    {
      i := i + 1;
    }
    k := if i < |s| then Some(i) else None;
  }

  /** reduce((acc, x) => acc + f(x), 0). */
  function SumOf<T>(s: seq<T>, f: T -> int): int {
    if s == [] then 0 else f(s[0]) + SumOf(s[1..], f)
  }

  lemma {:induction false} SumOfAppend<T>(a: seq<T>, b: seq<T>, f: T -> int)
    ensures SumOf(a + b, f) == SumOf(a, f) + SumOf(b, f)
  {
    if a == [] {
      assert a + b == b;
    } else {
      assert (a + b)[1..] == a[1..] + b;
      SumOfAppend(a[1..], b, f);
    }
  }

  /** A sum of non-negative terms is non-negative, and it is zero when every term is. */
  lemma {:induction false} SumOfNonNegative<T>(s: seq<T>, f: T -> int)
    requires forall i :: 0 <= i < |s| ==> f(s[i]) >= 0
    ensures SumOf(s, f) >= 0
    ensures (forall i :: 0 <= i < |s| ==> f(s[i]) == 0) ==> SumOf(s, f) == 0
  {
    if s != [] {
      SumOfNonNegative(s[1..], f);
    }
  }

  /** slice(0, n). */
  function Take<T>(s: seq<T>, n: nat): (r: seq<T>)
    ensures |r| <= n && |r| <= |s|
    ensures r == s[..|r|]
    ensures |s| <= n ==> r == s
    ensures |s| > n ==> |r| == n
  {
    if |s| <= n then s else s[..n]
  }

  /** [...s].reverse(). */
  function Reverse<T>(s: seq<T>): (r: seq<T>)
    ensures |r| == |s| && forall i :: 0 <= i < |s| ==> r[i] == s[|s| - 1 - i]
  {
    seq(|s|, i requires 0 <= i < |s| => s[|s| - 1 - i])
  }

  /** Lists with the same multiset of elements have the same members. */
  lemma SameMembers<T>(a: seq<T>, b: seq<T>)
    requires multiset(a) == multiset(b)
    ensures forall i :: 0 <= i < |a| ==> a[i] in b
    ensures forall i :: 0 <= i < |b| ==> b[i] in a
  {
    forall i | 0 <= i < |a| ensures a[i] in b {
      assert a[i] in multiset(a);
    }
    forall i | 0 <= i < |b| ensures b[i] in a {
      assert b[i] in multiset(b);
    }
  }

  /** The list is ordered by key, largest first. */
  predicate SortedDesc<T>(s: seq<T>, key: T -> int) {
    forall i, j :: 0 <= i < j < |s| ==> key(s[i]) >= key(s[j])
  }

  /** Putting h in front of a list sorted largest first keeps it sorted when h's
      key is at least that of the list's first element. */
  lemma ConsSortedDesc<T>(h: T, t: seq<T>, key: T -> int)
    requires SortedDesc(t, key)
    requires t != [] ==> key(h) >= key(t[0])
    ensures SortedDesc([h] + t, key)
  {
    var r := [h] + t;
    forall i, j | 0 <= i < j < |r|
      ensures key(r[i]) >= key(r[j])
    {
      if i == 0 && j > 1 {
        assert key(t[0]) >= key(t[j - 1]);
      }
    }
  }

  /** Inserts x after every element whose key is at least x's, so that equal keys
      keep the order in which they were inserted. */
  function InsertDesc<T>(x: T, s: seq<T>, key: T -> int): (r: seq<T>)
    requires SortedDesc(s, key)
    ensures |r| == |s| + 1
    ensures r[0] == x || (s != [] && r[0] == s[0])
    ensures multiset(r) == multiset(s) + multiset{x}
    ensures SortedDesc(r, key)
  {
    if s == [] then [x]
    else if key(s[0]) >= key(x) then
      var rest := InsertDesc(x, s[1..], key);
      assert s == [s[0]] + s[1..];
      assert s[1..] != [] ==> key(s[0]) >= key(s[1..][0]);
      ConsSortedDesc(s[0], rest, key);
      [s[0]] + rest
    else
      ConsSortedDesc(x, s, key);
      [x] + s
  }

  /** sort((a, b) => key(b) - key(a)): the same elements, largest key first. */
  function SortDesc<T>(s: seq<T>, key: T -> int): (r: seq<T>)
    ensures SortedDesc(r, key)
    ensures multiset(r) == multiset(s)
    ensures |r| == |s|
  {
    if s == [] then []
    else
      var init := s[..|s| - 1];
      assert s == init + [s[|s| - 1]];
      InsertDesc(s[|s| - 1], SortDesc(init, key), key)
  }

  // ---------------------------------------------------------------------------
  // Strings

  /** The characters JavaScript's trim() and the regular expression class \s treat
      as white space: the ECMAScript WhiteSpace and LineTerminator code points. */
  predicate IsSpace(c: char) {
    var n := c as int;
    n == 9 || n == 10 || n == 11 || n == 12 || n == 13 || n == 32 || n == 0xA0 ||
    n == 0x1680 || (0x2000 <= n <= 0x200A) || n == 0x2028 || n == 0x2029 ||
    n == 0x202F || n == 0x205F || n == 0x3000 || n == 0xFEFF
  }

  function TrimStart(s: string): (r: string)
    ensures |r| <= |s| && r == s[|s| - |r|..]
    ensures forall i :: 0 <= i < |s| - |r| ==> IsSpace(s[i])
    ensures r != [] ==> !IsSpace(r[0])
  {
    if s != [] && IsSpace(s[0]) then TrimStart(s[1..]) else s
  }

  function TrimEnd(s: string): (r: string)
    ensures |r| <= |s| && r == s[..|r|]
    ensures forall i :: |r| <= i < |s| ==> IsSpace(s[i])
    ensures r != [] ==> !IsSpace(r[|r| - 1])
  {
    if s != [] && IsSpace(s[|s| - 1]) then TrimEnd(s[..|s| - 1]) else s
  }

  /** String.prototype.trim: the result neither starts nor ends with white space,
      and it is empty exactly when s is blank. */
  function Trim(s: string): (r: string)
    ensures |r| <= |s|
    ensures r == [] || (!IsSpace(r[0]) && !IsSpace(r[|r| - 1]))
    ensures r == [] <==> forall i :: 0 <= i < |s| ==> IsSpace(s[i])
  {
    var t := TrimStart(s);
    var r := TrimEnd(t);
    assert t != [] ==> t[0] == s[|s| - |t|];
    r
  }

  /** Neither end of a trimmed string is white space. */
  lemma TrimmedEnds(s: string)
    ensures var t := Trim(s); t == [] || (!IsSpace(t[0]) && !IsSpace(t[|t| - 1]))
  {
  }

  /** A string without white space is its own trim. */
  lemma TrimNoSpace(s: string)
    requires forall i :: 0 <= i < |s| ==> !IsSpace(s[i])
    ensures Trim(s) == s
  {
  }

  /** Trimming a string made only of white space gives "". */
  lemma {:induction false} TrimAllSpace(s: string)
    requires forall i :: 0 <= i < |s| ==> IsSpace(s[i])
    ensures Trim(s) == ""
  {
    if s != [] {
      TrimAllSpace(s[1..]);
    }
  }

  function LowerChar(c: char): char {
    if 'A' <= c <= 'Z' then (c as int + 32) as char else c
  }

  /** String.prototype.toLowerCase on the ASCII letters. */
  function ToLower(s: string): string {
    seq(|s|, i requires 0 <= i < |s| => LowerChar(s[i]))
  }

  function UpperChar(c: char): char {
    if 'a' <= c <= 'z' then (c as int - 32) as char else c
  }

  /** String.prototype.toUpperCase on the ASCII letters. */
  function ToUpper(s: string): string {
    seq(|s|, i requires 0 <= i < |s| => UpperChar(s[i]))
  }

  /** sub occurs in s starting at index i. */
  predicate OccursAt(s: string, sub: string, i: int) {
    0 <= i <= |s| - |sub| && s[i..i + |sub|] == sub
  }

  /** String.prototype.includes. */
  predicate Contains(s: string, sub: string) {
    exists i :: 0 <= i <= |s| - |sub| && OccursAt(s, sub, i)
  }

  /** Every string includes the empty string. */
  lemma ContainsEmpty(s: string)
    ensures Contains(s, "")
  {
    assert OccursAt(s, "", 0);
  }

  /** Every string includes itself. */
  lemma ContainsSelf(s: string)
    ensures Contains(s, s)
  {
    assert OccursAt(s, s, 0);
  }

  /** String.prototype.startsWith. */
  predicate StartsWith(s: string, prefix: string) {
    |prefix| <= |s| && s[..|prefix|] == prefix
  }

  function IndexOfChar(s: string, c: char): (k: nat)
    requires c in s
    ensures k < |s| && s[k] == c && c !in s[..k]
  {
    if s[0] == c then 0 else 1 + IndexOfChar(s[1..], c)
  }

  /** Joins the pieces with sep between consecutive pieces. */
  function Join(parts: seq<string>, sep: char): string {
    if parts == [] then ""
    else if |parts| == 1 then parts[0]
    else parts[0] + [sep] + Join(parts[1..], sep)
  }

  /** String.prototype.split with a one-character separator: the pieces contain no
      separator and joining them back gives the original string. */
  function Split(s: string, sep: char): (r: seq<string>)
    ensures |r| >= 1
    ensures forall i :: 0 <= i < |r| ==> sep !in r[i]
    ensures Join(r, sep) == s
    decreases |s|
  {
    if sep !in s then [s]
    else
      var k := IndexOfChar(s, sep);
      var rest := Split(s[k + 1..], sep);
      assert s == s[..k] + [sep] + s[k + 1..];
      [s[..k]] + rest
  }
}
