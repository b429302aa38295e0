/**
 * The request-body rewrite of the replay engine: every `<string>OLD</string>`
 * becomes `<string>NEW</string>`, found from left to right without overlap.
 */
module Rewrite {
  import opened Common

  const OPEN: Bytes := [60, 115, 116, 114, 105, 110, 103, 62]       // <string>
  const CLOSE: Bytes := [60, 47, 115, 116, 114, 105, 110, 103, 62]  // </string>

  // ---- decimal printing -------------------------------------------------

  function Dec(n: nat): Bytes {
    if n < 10 then [48 + n as byte] else Dec(n / 10) + [48 + (n % 10) as byte]
  }

  function Value(s: Bytes): int {
    if s == [] then 0 else 10 * Value(s[..|s| - 1]) + s[|s| - 1] as int - 48
  }

  lemma {:induction false} DecReadsBack(n: nat)
    ensures Value(Dec(n)) == n
  {
    if n >= 10 {
      DecReadsBack(n / 10);
      assert Dec(n)[..|Dec(n)| - 1] == Dec(n / 10);
    }
  }

  lemma {:induction false} DecIsDigits(n: nat)
    ensures Dec(n) != [] && forall k :: 0 <= k < |Dec(n)| ==> 48 <= Dec(n)[k] <= 57
  {
    if n >= 10 {
      DecIsDigits(n / 10);
    }
  }

  /** The shortest form: one digit below ten, and no leading zero above. */
  lemma {:induction false} DecIsShort(n: nat)
    ensures n < 10 ==> Dec(n) == [48 + n as byte]
    ensures n >= 10 ==> |Dec(n)| >= 2 && Dec(n)[0] != 48
  {
    if n >= 10 {
      DecIsShort(n / 10);
    }
  }

  /** Digits without a leading zero. */
  predicate Canonical(d: Bytes) {
    && d != [] && (forall k :: 0 <= k < |d| ==> 48 <= d[k] <= 57)
    && (|d| > 1 ==> d[0] != 48)
  }

  /** The decimal numeral of a number is the only one without a leading zero. */
  lemma {:induction false} DecIsTheNumeral(d: Bytes, n: nat)
    ensures Canonical(Dec(n))
    ensures Canonical(d) ==> Value(d) >= 0
    ensures Canonical(d) && Value(d) == n ==> Dec(n) == d
  {
    DecIsShort(n);
    DecIsDigits(n);
    if Canonical(d) {
      NumeralReadsBack(d);
    }
  }

  lemma {:induction false} NumeralReadsBack(d: Bytes)
    requires Canonical(d)
    ensures Value(d) >= 0 && Dec(Value(d)) == d
    ensures |d| > 1 ==> Value(d) >= 10
  {
    var front, last := d[..|d| - 1], d[|d| - 1];
    if |d| == 1 {
      assert Value(d) == last as int - 48;
      DecIsShort(Value(d));
    } else {
      NumeralReadsBack(front);
      if |front| == 1 {
        assert Value(front) == front[0] as int - 48;
      }
      var digit := last as int - 48;
      assert Value(d) == 10 * Value(front) + digit;
      DivTen(Value(front), digit);
      assert d == front + [last];
    }
  }

  lemma DivTen(n: int, d: int)
    requires 0 <= d < 10
    ensures (10 * n + d) / 10 == n && (10 * n + d) % 10 == d
  {
  }

  /** Text in bytes. */
  function Text(s: string): Bytes {
    seq(|s|, i requires 0 <= i < |s| => (s[i] as int % 256) as byte)
  }

  /** A tag is the number in decimal between an opening and a closing string element. */
  lemma TagIsText(id: nat)
    ensures Tag(id) == Text("<string>") + Dec(id) + Text("</string>")
  {
    assert OPEN == Text("<string>");
    assert CLOSE == Text("</string>");
  }

  function Tag(id: nat): Bytes {
    OPEN + Dec(id) + CLOSE
  }

  // ---- search and replace -----------------------------------------------

  function ReplaceAll(s: Bytes, p: Bytes, q: Bytes): Bytes
    requires p != []
    decreases |s|
  {
    if |s| < |p| then s
    else if p <= s then q + ReplaceAll(s[|p|..], p, q)
    else [s[0]] + ReplaceAll(s[1..], p, q)
  }

  /** The body sent for one target version. */
  function RewriteBody(body: Bytes, latest: nat, target: nat): Bytes {
    ReplaceAll(body, Tag(latest), Tag(target))
  }

  /** The number of positions at which p occurs in s. */
  function Count(s: Bytes, p: Bytes): nat
    requires p != []
  {
    if |s| < |p| then 0 else (if p <= s then 1 else 0) + Count(s[1..], p)
  }

  /** The positions at which p occurs in s. */
  function Occurrences(s: Bytes, p: Bytes): set<nat> {
    set k: nat | k <= |s| && p <= s[k..]
  }

  /** What occurs in the tail occurs one further on in the whole. */
  lemma OccurrencesOfTail(s: Bytes, p: Bytes)
    requires s != [] && p != []
    ensures Occurrences(s, p) == (if p <= s then {0} else {}) + Shifted(Occurrences(s[1..], p))
  {
    forall k: nat | k <= |s| ensures k in Occurrences(s, p) <==> if k == 0 then p <= s else k - 1 in Occurrences(s[1..], p) {
      if k == 0 {
        assert s[0..] == s;
      } else {
        assert s[1..][k - 1..] == s[k..];
      }
    }
  }

  /** The count is the number of positions. */
  lemma {:induction false} CountsOccurrences(s: Bytes, p: Bytes)
    requires p != []
    ensures Count(s, p) == |Occurrences(s, p)|
  {
    if |s| < |p| {
      assert Occurrences(s, p) == {};
    } else {
      OccurrencesOfTail(s, p);
      CountsOccurrences(s[1..], p);
      ShiftKeepsSize(Occurrences(s[1..], p));
      assert 0 !in Shifted(Occurrences(s[1..], p));
    }
  }

  function Shifted(a: set<nat>): set<nat> {
    set k | k in a :: k + 1
  }

  lemma {:induction false} ShiftKeepsSize(a: set<nat>)
    ensures |Shifted(a)| == |a|
  {
    if a != {} {
      var x :| x in a;
      ShiftKeepsSize(a - {x});
      forall y | y in Shifted(a) ensures y in Shifted(a - {x}) + {x + 1} {
        assert y - 1 in a;
        if y - 1 != x { assert y - 1 in a - {x}; }
      }
      assert Shifted(a) == Shifted(a - {x}) + {x + 1};
    }
  }

  /** s cut at the occurrences of p, taken from left to right. */
  function Pieces(s: Bytes, p: Bytes): (r: seq<Bytes>)
    requires p != []
    ensures r != []
    decreases |s|
  {
    if |s| < |p| then [s]
    else if p <= s then [[]] + Pieces(s[|p|..], p)
    else var rest := Pieces(s[1..], p); [[s[0]] + rest[0]] + rest[1..]
  }

  function Join(pieces: seq<Bytes>, q: Bytes): Bytes
    requires pieces != []
  {
    if |pieces| == 1 then pieces[0] else pieces[0] + q + Join(pieces[1..], q)
  }

  // ---- which patterns can touch each other ------------------------------

  predicate Comparable(a: Bytes, b: Bytes) {
    a <= b || b <= a
  }

  /** No proper non-empty suffix of u can begin an occurrence of p. */
  ghost predicate Apart(u: Bytes, p: Bytes) {
    forall k :: 0 < k < |u| ==> !Comparable(u[k..], p)
  }

  /** The facts about a pattern p and a replacement q that the proofs use. */
  ghost predicate Separated(p: Bytes, q: Bytes) {
    && p != [] && q != []
    && !Comparable(p, q)
    && Apart(p, p) && Apart(p, q) && Apart(q, p) && Apart(q, q)
  }

  lemma TagsApart(x: nat, y: nat)
    ensures Apart(Tag(x), Tag(y))
  {
    var u, p := Tag(x), Tag(y);
    DecIsDigits(x);
    forall k | 0 < k < |u| ensures !Comparable(u[k..], p) {
      assert p[0] == 60 && p[1] == 115;
      assert u[k..][0] == u[k];
      if k == 8 + |Dec(x)| {
        assert u[k..][1] == u[k + 1] == 47;
      } else if k < 8 {
        assert u[k] == OPEN[k] != 60;
      } else if k < 8 + |Dec(x)| {
        assert u[k] == Dec(x)[k - 8];
      } else {
        assert u[k] == CLOSE[k - 8 - |Dec(x)|] != 60;
      }
    }
  }

  /** Decimal printing is injective, and a longer number never hides a shorter one. */
  lemma TagsDiffer(x: nat, y: nat)
    requires Comparable(Tag(x), Tag(y))
    ensures x == y
  {
    var u, p := Tag(x), Tag(y);
    var dx, dy := Dec(x), Dec(y);
    DecIsDigits(x);
    DecIsDigits(y);
    var m := if |u| <= |p| then |u| else |p|;
    assert forall k :: 0 <= k < m ==> u[k] == p[k] by {
      forall k | 0 <= k < m ensures u[k] == p[k] {
        assert u[..m][k] == p[..m][k];
      }
    }
    assert u[8 + |dx|] == 60 && p[8 + |dy|] == 60;
    assert |dx| == |dy|;
    assert dx == u[8..8 + |dx|] == p[8..8 + |dx|] == dy;
    DecReadsBack(x);
    DecReadsBack(y);
  }

  lemma TagsSeparated(x: nat, y: nat)
    requires x != y
    ensures Separated(Tag(x), Tag(y))
  {
    TagsApart(x, x);
    TagsApart(x, y);
    TagsApart(y, x);
    TagsApart(y, y);
    if Comparable(Tag(x), Tag(y)) {
      TagsDiffer(x, y);
    }
  }

  // ---- replacing, for separated patterns --------------------------------

  /** A replacement neither creates nor destroys a leading w none of whose suffixes touches p or q. */
  lemma {:induction false} LeadingPartKept(w: Bytes, t: Bytes, p: Bytes, q: Bytes)
    requires p != []
    requires forall k :: 0 <= k < |w| ==> !Comparable(w[k..], p) && !Comparable(w[k..], q)
    ensures w <= ReplaceAll(t, p, q) <==> w <= t
    decreases |t|
  {
    var r := ReplaceAll(t, p, q);
    if w == [] || |t| < |p| {
    } else if p <= t {
      assert w == w[0..];
      assert r == q + ReplaceAll(t[|p|..], p, q);
      assert !(w <= t) by { if w <= t { PrefixesCompare(w, p, t); } }
      assert !(w <= r) by { if w <= r { PrefixesCompare(w, q, r); } }
    } else {
      var v := w[1..];
      assert forall k :: 0 <= k < |v| ==> v[k..] == w[k + 1..];
      LeadingPartKept(v, t[1..], p, q);
      assert r == [t[0]] + ReplaceAll(t[1..], p, q);
      assert w == [w[0]] + v;
      assert w <= r <==> (w[0] == t[0] && v <= r[1..]) by { ConsPrefix(w, r); }
      assert w <= t <==> (w[0] == t[0] && v <= t[1..]) by { ConsPrefix(w, t); }
    }
  }

  lemma PrefixesCompare(a: Bytes, b: Bytes, s: Bytes)
    requires a <= s && b <= s
    ensures Comparable(a, b)
  {
    if |a| <= |b| {
      assert a == s[..|a|] == b[..|a|];
    } else {
      assert b == s[..|b|] == a[..|b|];
    }
  }

  lemma ConsPrefix(w: Bytes, s: Bytes)
    requires w != [] && s != []
    ensures w <= s <==> w[0] == s[0] && w[1..] <= s[1..]
  {
    if w <= s {
      assert w[1..] == s[1..][..|w| - 1];
    }
    if |w| <= |s| && w[0] == s[0] && w[1..] <= s[1..] {
      forall k | 0 <= k < |w| ensures w[k] == s[k] {
        if k > 0 {
          assert w[k] == w[1..][k - 1] == s[1..][k - 1];
        }
      }
    }
  }

  /** An occurrence of p at the first byte survives or is absent alike, when the first byte is kept. */
  lemma HeadKept(c: byte, t: Bytes, w: Bytes, p: Bytes, q: Bytes)
    requires w != [] && p != [] && Apart(w, p) && Apart(w, q)
    ensures w <= [c] + ReplaceAll(t, p, q) <==> w <= [c] + t
  {
    var v := w[1..];
    assert forall k :: 0 <= k < |v| ==> v[k..] == w[k + 1..];
    LeadingPartKept(v, t, p, q);
    ConsPrefix(w, [c] + ReplaceAll(t, p, q));
    ConsPrefix(w, [c] + t);
    assert ([c] + t)[1..] == t && ([c] + ReplaceAll(t, p, q))[1..] == ReplaceAll(t, p, q);
  }

  /** A block in which p cannot start adds nothing to the count. */
  lemma {:induction false} CountSkips(u: Bytes, t: Bytes, p: Bytes)
    requires p != [] && forall k :: 0 <= k < |u| ==> !Comparable(u[k..], p)
    ensures Count(u + t, p) == Count(t, p)
  {
    if u == [] {
      assert u + t == t;
    } else {
      assert u == u[0..];
      assert !(p <= u + t) by {
        if p <= u + t {
          assert u <= u + t;
          PrefixesCompare(u, p, u + t);
        }
      }
      assert forall k :: 0 <= k < |u[1..]| ==> u[1..][k..] == u[k + 1..];
      assert (u + t)[1..] == u[1..] + t;
      CountSkips(u[1..], t, p);
      ShortCount(t, p);
    }
  }

  lemma ShortCount(t: Bytes, p: Bytes)
    requires p != []
    ensures |t| < |p| ==> Count(t, p) == 0
  {
  }

  /** A pattern that does not overlap itself is counted once where it stands. */
  lemma CountHere(t: Bytes, p: Bytes)
    requires p != [] && Apart(p, p)
    ensures Count(p + t, p) == 1 + Count(t, p)
  {
    var u := p[1..];
    assert forall k :: 0 <= k < |u| ==> u[k..] == p[k + 1..];
    assert p <= p + t && (p + t)[1..] == u + t;
    CountSkips(u, t, p);
  }

  /** A separated pattern that stands in front hides no occurrence of the other. */
  lemma CountElsewhere(u: Bytes, t: Bytes, p: Bytes)
    requires p != [] && Apart(u, p) && !Comparable(u, p)
    ensures Count(u + t, p) == Count(t, p)
  {
    assert u == u[0..];
    CountSkips(u, t, p);
  }

  lemma {:induction false} ReplaceLeavesNone(s: Bytes, p: Bytes, q: Bytes)
    requires Separated(p, q)
    ensures Count(ReplaceAll(s, p, q), p) == 0
    decreases |s|
  {
    if |s| < |p| {
    } else if p <= s {
      var t := s[|p|..];
      ReplaceLeavesNone(t, p, q);
      CountElsewhere(q, ReplaceAll(t, p, q), p);
    } else {
      var t := s[1..];
      assert s == [s[0]] + t;
      ReplaceLeavesNone(t, p, q);
      HeadKept(s[0], t, p, p, q);
      CountCons(s[0], ReplaceAll(t, p, q), p);
    }
  }

  lemma {:induction false} ReplaceAddsCounts(s: Bytes, p: Bytes, q: Bytes)
    requires Separated(p, q)
    ensures Count(ReplaceAll(s, p, q), q) == Count(s, p) + Count(s, q)
    decreases |s|
  {
    if |s| < |p| {
    } else if p <= s {
      var t := s[|p|..];
      assert s == p + t;
      ReplaceAddsCounts(t, p, q);
      CountHere(t, p);
      CountElsewhere(p, t, q);
      CountHere(ReplaceAll(t, p, q), q);
    } else {
      var t := s[1..];
      assert s == [s[0]] + t;
      ReplaceAddsCounts(t, p, q);
      HeadKept(s[0], t, q, p, q);
      CountCons(s[0], ReplaceAll(t, p, q), q);
      CountCons(s[0], t, p);
      CountCons(s[0], t, q);
    }
  }

  lemma {:induction false} ReplaceLength(s: Bytes, p: Bytes, q: Bytes)
    requires p != [] && Apart(p, p)
    ensures |ReplaceAll(s, p, q)| == |s| + Count(s, p) * (|q| - |p|)
    decreases |s|
  {
    var d := |q| - |p|;
    if |s| < |p| {
      assert 0 * d == 0;
    } else if p <= s {
      var t := s[|p|..];
      assert s == p + t;
      ReplaceLength(t, p, q);
      CountHere(t, p);
      OneMore(Count(t, p), |q| - |p|);
    } else {
      var t := s[1..];
      assert s == [s[0]] + t;
      ReplaceLength(t, p, q);
      CountCons(s[0], t, p);
    }
  }

  lemma OneMore(n: nat, d: int)
    ensures (1 + n) * d == n * d + d
  {
  }

  lemma CountCons(c: byte, t: Bytes, p: Bytes)
    requires p != []
    ensures Count([c] + t, p) == (if p <= [c] + t then 1 else 0) + Count(t, p)
  {
    assert ([c] + t)[1..] == t;
    ShortCount(t, p);
  }

  /** Replacing back restores s when q was not there to begin with. */
  lemma {:induction false} ReplaceBack(s: Bytes, p: Bytes, q: Bytes)
    requires Separated(p, q) && Count(s, q) == 0
    ensures ReplaceAll(ReplaceAll(s, p, q), q, p) == s
    decreases |s|
  {
    var r := ReplaceAll(s, p, q);
    if |s| < |p| {
      NothingToReplace(s, q, p);
    } else if p <= s {
      var t := s[|p|..];
      assert s == p + t;
      CountElsewhere(p, t, q);
      ReplaceBack(t, p, q);
      assert r[|q|..] == ReplaceAll(t, p, q);
    } else {
      var t := s[1..];
      assert s == [s[0]] + t && r == [s[0]] + ReplaceAll(t, p, q);
      CountCons(s[0], t, q);
      ReplaceBack(t, p, q);
      HeadKept(s[0], t, q, p, q);
      assert r[1..] == ReplaceAll(t, p, q);
      if |r| < |q| {
        NothingToReplace(r[1..], q, p);
      }
    }
  }

  lemma {:induction false} NothingToReplace(s: Bytes, p: Bytes, q: Bytes)
    requires p != [] && Count(s, p) == 0
    ensures ReplaceAll(s, p, q) == s
  {
    if |s| >= |p| {
      NothingToReplace(s[1..], p, q);
    }
  }

  lemma {:induction false} ReplaceBySame(s: Bytes, p: Bytes)
    requires p != []
    ensures ReplaceAll(s, p, p) == s
    decreases |s|
  {
    if |s| < |p| {
    } else if p <= s {
      ReplaceBySame(s[|p|..], p);
    } else {
      ReplaceBySame(s[1..], p);
    }
  }

  /** Replacing is joining the pieces with the replacement. */
  lemma {:induction false} PiecesRejoin(s: Bytes, p: Bytes, q: Bytes)
    requires p != []
    ensures Join(Pieces(s, p), q) == ReplaceAll(s, p, q)
    decreases |s|
  {
    if |s| < |p| {
    } else if p <= s {
      var rest := Pieces(s[|p|..], p);
      PiecesRejoin(s[|p|..], p, q);
      JoinEmpty(rest, q);
      assert Pieces(s, p) == [[]] + rest;
    } else {
      var rest := Pieces(s[1..], p);
      PiecesRejoin(s[1..], p, q);
      JoinCons(s[0], rest, q);
      assert Pieces(s, p) == [[s[0]] + rest[0]] + rest[1..];
    }
  }

  lemma JoinEmpty(pieces: seq<Bytes>, q: Bytes)
    requires pieces != []
    ensures Join([[]] + pieces, q) == q + Join(pieces, q)
  {
    assert ([[]] + pieces)[1..] == pieces;
  }

  /** The pieces hold no occurrence, and there is one more of them than there are occurrences. */
  lemma {:induction false} PiecesAreFree(s: Bytes, p: Bytes)
    requires p != [] && Apart(p, p)
    ensures |Pieces(s, p)| == Count(s, p) + 1
    ensures forall k :: 0 <= k < |Pieces(s, p)| ==> Count(Pieces(s, p)[k], p) == 0
    decreases |s|
  {
    if |s| < |p| {
    } else if p <= s {
      var t := s[|p|..];
      assert s == p + t;
      PiecesAreFree(t, p);
      CountHere(t, p);
    } else {
      var t := s[1..];
      var rest := Pieces(t, p);
      PiecesAreFree(t, p);
      FirstPieceIsPrefix(s, p);
      CountCons(s[0], rest[0], p);
      PrefixOfPrefix(p, [s[0]] + rest[0], s);
    }
  }

  lemma PrefixOfPrefix(a: Bytes, b: Bytes, s: Bytes)
    requires b <= s
    ensures a <= b ==> a <= s
  {
  }

  lemma JoinCons(c: byte, pieces: seq<Bytes>, q: Bytes)
    requires pieces != []
    ensures Join([[c] + pieces[0]] + pieces[1..], q) == [c] + Join(pieces, q)
  {
    var longer := [[c] + pieces[0]] + pieces[1..];
    assert longer[1..] == pieces[1..];
  }

  lemma {:induction false} FirstPieceIsPrefix(s: Bytes, p: Bytes)
    requires p != []
    ensures Pieces(s, p)[0] <= s
    decreases |s|
  {
    if |s| >= |p| && !(p <= s) {
      FirstPieceIsPrefix(s[1..], p);
    }
  }

  // ---- the rewrite itself -----------------------------------------------

  /** What a rewrite to another version does to the body. */
  lemma RewriteExact(body: Bytes, latest: nat, target: nat)
    requires latest != target
    ensures var r := RewriteBody(body, latest, target);
            && Count(r, Tag(latest)) == 0
            && Count(r, Tag(target)) == Count(body, Tag(latest)) + Count(body, Tag(target))
            && |r| == |body| + Count(body, Tag(latest)) * (|Dec(target)| - |Dec(latest)|)
  {
    TagsSeparated(latest, target);
    ReplaceLeavesNone(body, Tag(latest), Tag(target));
    ReplaceAddsCounts(body, Tag(latest), Tag(target));
    ReplaceLength(body, Tag(latest), Tag(target));
  }

  lemma RewriteToSameVersion(body: Bytes, id: nat)
    ensures RewriteBody(body, id, id) == body
  {
    ReplaceBySame(body, Tag(id));
  }

  /** Every byte outside the replaced occurrences is kept, in order. */
  lemma RewriteKeepsTheRest(body: Bytes, latest: nat, target: nat)
    ensures var pieces := Pieces(body, Tag(latest));
            && body == Join(pieces, Tag(latest))
            && RewriteBody(body, latest, target) == Join(pieces, Tag(target))
            && |pieces| == Count(body, Tag(latest)) + 1
            && forall k :: 0 <= k < |pieces| ==> Count(pieces[k], Tag(latest)) == 0
  {
    TagsApart(latest, latest);
    PiecesAreFree(body, Tag(latest));
    PiecesRejoin(body, Tag(latest), Tag(target));
    PiecesRejoin(body, Tag(latest), Tag(latest));
    RewriteToSameVersion(body, latest);
  }

  /** Rewriting forth and back restores the body exactly when nothing else was tagged with the target. */
  lemma RewriteRoundTrip(body: Bytes, latest: nat, target: nat)
    ensures RewriteBody(RewriteBody(body, latest, target), target, latest) == body
            <==> latest == target || Count(body, Tag(target)) == 0
  {
    if latest == target {
      RewriteToSameVersion(body, latest);
    } else if Count(body, Tag(target)) == 0 {
      TagsSeparated(latest, target);
      ReplaceBack(body, Tag(latest), Tag(target));
    } else {
      RewriteExact(RewriteBody(body, latest, target), target, latest);
    }
  }

  /** A body that holds nothing but the target's tag comes back with the other one. */
  lemma RoundTripLoses(latest: nat, target: nat)
    requires latest != target
    ensures var body := Tag(target);
            RewriteBody(RewriteBody(body, latest, target), target, latest) == Tag(latest) != body
  {
    var old', new' := Tag(latest), Tag(target);
    TagsSeparated(latest, target);
    CountSkips(new', [], old');
    assert new' + [] == new';
    NothingToReplace(new', old', new');
    assert new'[|new'|..] == [];
    assert ReplaceAll(new', new', old') == old' + [];
  }
}
