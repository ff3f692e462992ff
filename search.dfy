/** The holdings search of the portfolio page (frontend/src/pages/Portfolio.jsx):
    a holding is listed when its symbol, lower-cased, contains the lower-cased
    search term. */
module Search {
  import opened Basics
  import Holdings

  /** `toLowerCase` on one character, for the ASCII letters. */
  function LowerChar(c: char): char
  {
    if 'A' <= c <= 'Z' then (c as int - 'A' as int + 'a' as int) as char else c
  }

  function UpperChar(c: char): char
  {
    if 'a' <= c <= 'z' then (c as int - 'a' as int + 'A' as int) as char else c
  }

  function Lower(s: string): (r: string)
    ensures |r| == |s| && forall i :: 0 <= i < |s| ==> r[i] == LowerChar(s[i])
  {
    seq(|s|, i requires 0 <= i < |s| => LowerChar(s[i]))
  }

  function Upper(s: string): (r: string)
    ensures |r| == |s| && forall i :: 0 <= i < |s| ==> r[i] == UpperChar(s[i])
  {
    seq(|s|, i requires 0 <= i < |s| => UpperChar(s[i]))
  }

  /** Lower-casing twice is lower-casing once, and lower-casing forgets an
      earlier upper-casing. */
  lemma LowerIdempotent(s: string)
    ensures Lower(Lower(s)) == Lower(s)
    ensures Lower(Upper(s)) == Lower(s)
  {
  }

  lemma LowerAppend(s: string, t: string)
    ensures Lower(s + t) == Lower(s) + Lower(t)
  {
  }

  /** `t` occurs in `s` starting at position `i`. */
  predicate OccursAt(s: string, t: string, i: int)
  {
    0 <= i && i + |t| <= |s| && s[i..i + |t|] == t
  }

  /** `s.includes(t)`: scan for a start position where `t` matches. */
  function Includes(s: string, t: string): bool
  {
    if |t| <= |s| && s[..|t|] == t then true
    else if s == [] then false
    else Includes(s[1..], t)
  }

  /** `includes` holds exactly when `t` occurs somewhere in `s`. */
  lemma {:induction false} IncludesSpec(s: string, t: string)
    ensures Includes(s, t) <==> exists i :: OccursAt(s, t, i)
  {
    if |t| <= |s| && s[..|t|] == t {
      assert OccursAt(s, t, 0);
    } else if s != [] {
      IncludesSpec(s[1..], t);
      if exists i :: OccursAt(s[1..], t, i) {
        var i :| OccursAt(s[1..], t, i);
        assert s[i + 1..i + 1 + |t|] == s[1..][i..i + |t|];
        assert OccursAt(s, t, i + 1);
      }
      if exists i :: OccursAt(s, t, i) {
        var i :| OccursAt(s, t, i);
        assert i != 0;
        assert s[1..][i - 1..i - 1 + |t|] == s[i..i + |t|];
        assert OccursAt(s[1..], t, i - 1);
      }
    }
  }

  /** The empty term occurs everywhere, and a term occurs in itself. */
  lemma IncludesTrivia(s: string)
    ensures Includes(s, "")
    ensures Includes(s, s)
  {
    assert s[..0] == "";
    assert s[..|s|] == s;
  }

  /** A symbol that contains a longer term contains every prefix of it, so
      typing more only narrows the list. */
  lemma IncludesPrefix(s: string, t: string, u: string)
    requires Includes(s, t + u)
    ensures Includes(s, t)
  {
    IncludesSpec(s, t + u);
    var i :| OccursAt(s, t + u, i);
    assert s[i..i + |t|] == (t + u)[..|t|] == t;
    assert OccursAt(s, t, i);
    IncludesSpec(s, t);
  }

  predicate Matches(h: Holdings.Holding, term: string)
  {
    Includes(Lower(h.symbol), Lower(term))
  }

  /** `filteredHoldings`. */
  function FilterBySearch(hs: seq<Holdings.Holding>, term: string): seq<Holdings.Holding>
  {
    Filter(hs, (h: Holdings.Holding) => Matches(h, term))
  }

  /** A holding is listed exactly when it is held and its symbol contains the
      term, ignoring the case of ASCII letters; the list keeps the order of
      the holdings. */
  lemma SearchSpec(hs: seq<Holdings.Holding>, term: string)
    ensures forall h :: h in FilterBySearch(hs, term) <==>
      h in hs && exists i :: OccursAt(Lower(h.symbol), Lower(term), i)
    ensures IsSubsequence(FilterBySearch(hs, term), hs)
    ensures forall h :: multiset(FilterBySearch(hs, term))[h] == if Matches(h, term) then multiset(hs)[h] else 0
  {
    var r := FilterBySearch(hs, term);
    forall h ensures h in r <==> h in hs && exists i :: OccursAt(Lower(h.symbol), Lower(term), i) {
      IncludesSpec(Lower(h.symbol), Lower(term));
      if h in r {
        var k :| 0 <= k < |r| && r[k] == h;
      }
      if h in hs && Matches(h, term) {
        var k :| 0 <= k < |hs| && hs[k] == h;
      }
    }
    FilterIsSubsequence(hs, (h: Holdings.Holding) => Matches(h, term));
    FilterCounts(hs, (h: Holdings.Holding) => Matches(h, term));
  }

  /** An empty search lists every holding. */
  lemma EmptySearchListsAll(hs: seq<Holdings.Holding>)
    ensures FilterBySearch(hs, "") == hs
  {
    forall k | 0 <= k < |hs| ensures Matches(hs[k], "") {
      IncludesTrivia(Lower(hs[k].symbol));
    }
    FilterKeepsAll(hs, (h: Holdings.Holding) => Matches(h, ""));
  }

  /** The case of the term does not matter. */
  lemma SearchIgnoresCase(hs: seq<Holdings.Holding>, term: string)
    ensures FilterBySearch(hs, Upper(term)) == FilterBySearch(hs, term)
    ensures FilterBySearch(hs, Lower(term)) == FilterBySearch(hs, term)
  {
    LowerIdempotent(term);
    FilterCongruent(hs, (h: Holdings.Holding) => Matches(h, Upper(term)), (h: Holdings.Holding) => Matches(h, term));
    FilterCongruent(hs, (h: Holdings.Holding) => Matches(h, Lower(term)), (h: Holdings.Holding) => Matches(h, term));
  }

  /** Extending the term never lists a holding the shorter term hid. */
  lemma SearchNarrows(hs: seq<Holdings.Holding>, term: string, more: string)
    ensures forall h :: h in FilterBySearch(hs, term + more) ==> h in FilterBySearch(hs, term)
  {
    LowerAppend(term, more);
    forall h | h in FilterBySearch(hs, term + more) ensures h in FilterBySearch(hs, term) {
      var k :| 0 <= k < |FilterBySearch(hs, term + more)| && FilterBySearch(hs, term + more)[k] == h;
      IncludesPrefix(Lower(h.symbol), Lower(term), Lower(more));
      var m :| 0 <= m < |hs| && hs[m] == h;
    }
  }
}
