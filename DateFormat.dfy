/** `validarFormatoFecha`: the strict `YYYY-MM-DD` shape check, written the
    way the component does it (an anchored regular expression with three
    digit groups, followed by a check of the group lengths), and the
    ordering of well-formed dates. */
module DateFormat {
  import opened Wrappers
  import opened JsText

  /** The shape, position by position: ten characters, a dash at 4 and 7,
      a digit everywhere else. */
  predicate DateShaped(s: string) {
    |s| == 10 && s[4] == '-' && s[7] == '-' &&
    forall i :: 0 <= i < 10 && i != 4 && i != 7 ==> IsDigit(s[i])
  }

  /** One element of an anchored regular expression made of capturing
      digit groups `(\d{n})` and literal characters. */
  datatype Piece = Digits(n: nat) | Lit(c: char)

  /** `^(\d{4})-(\d{2})-(\d{2})$` */
  const DatePattern: seq<Piece> := [Digits(4), Lit('-'), Digits(2), Lit('-'), Digits(2)]

  /** `\d{n}` at the start of `s`: the n digits and what follows them. */
  function TakeDigits(s: string, n: nat): (r: Option<(string, string)>)
    ensures r.Some? <==> n <= |s| && AllDigits(s[..n])
    ensures r.Some? ==> r.value.0 == s[..n] && r.value.1 == s[n..]
  {
    if n == 0 then Some(([], s))
    else if s == [] || !IsDigit(s[0]) then None
    else match TakeDigits(s[1..], n - 1)
      case None =>
        assert !(n <= |s| && AllDigits(s[..n])) by {
          if n <= |s| {
            assert s[1..][..n - 1] == s[..n][1..];
          }
        }
        None
      case Some((g, rest)) =>
        assert [s[0]] + g == s[..n];
        Some(([s[0]] + g, rest))
  }

  /** The length each capturing group of `pat` must match, left to right. */
  function GroupLengths(pat: seq<Piece>): (r: seq<nat>)
    decreases pat
  {
    if pat == [] then []
    else match pat[0]
      case Lit(_) => GroupLengths(pat[1..])
      case Digits(n) => [n] + GroupLengths(pat[1..])
  }

  /** Matches all of `s` against the pieces of `pat` in order; on success,
      the text each capturing group matched, left to right (what
      `String.prototype.match` returns after the whole match). There is one
      capture per group, of the group's length and made of digits. */
  function MatchPieces(s: string, pat: seq<Piece>): (r: Option<seq<string>>)
    ensures r.Some? ==> |r.value| == |GroupLengths(pat)|
    ensures r.Some? ==> forall i :: 0 <= i < |r.value| ==>
      |r.value[i]| == GroupLengths(pat)[i] && AllDigits(r.value[i])
    decreases pat
  {
    if pat == [] then
      if s == [] then Some([]) else None
    else match pat[0]
      case Lit(c) =>
        if s != [] && s[0] == c then MatchPieces(s[1..], pat[1..]) else None
      case Digits(n) =>
        match TakeDigits(s, n)
        case None => None
        case Some((g, rest)) =>
          match MatchPieces(rest, pat[1..])
          case None => None
          case Some(gs) =>
            assert forall i :: 0 < i < |gs| + 1 ==> ([g] + gs)[i] == gs[i - 1];
            Some([g] + gs)
  }

  /** The date pattern matches exactly the date-shaped strings, and then
      captures the year, the month and the day. */
  lemma DatePatternMatch(s: string)
    ensures MatchPieces(s, DatePattern).Some? <==> DateShaped(s)
    ensures DateShaped(s) ==> MatchPieces(s, DatePattern) == Some([s[..4], s[5..7], s[8..]])
  {
    if DateShaped(s) {
      DatePatternAccepts(s);
    } else if MatchPieces(s, DatePattern).Some? {
      DatePatternOnlyDates(s);
    }
  }

  lemma DatePatternAccepts(s: string)
    requires DateShaped(s)
    ensures MatchPieces(s, DatePattern) == Some([s[..4], s[5..7], s[8..]])
  {
    var p := DatePattern;
    var p1, p2, p3, p4 := p[1..], p[2..], p[3..], p[4..];
    assert p1[1..] == p2 && p2[1..] == p3 && p3[1..] == p4 && p4[1..] == [];
    var y, r1, r2, m, r3, r4, d := s[..4], s[4..], s[5..], s[5..7], s[7..], s[8..], s[8..];
    assert r2[..2] == m && r2[2..] == r3 && r4[..2] == d && r4[2..] == [];
    assert r1[1..] == r2 && r3[1..] == r4;
    assert AllDigits(y) && AllDigits(m) && AllDigits(d);
    assert TakeDigits(r4, 2) == Some((d, []));
    assert MatchPieces(r4, p4) == Some([d] + []);
    assert [d] + [] == [d];
    assert MatchPieces(r3, p3) == Some([d]);
    assert TakeDigits(r2, 2) == Some((m, r3));
    assert MatchPieces(r2, p2) == Some([m] + [d]);
    assert [m] + [d] == [m, d];
    assert r1 != [] && r1[0] == '-' && p1[0] == Lit('-');
    assert MatchPieces(r1, p1) == Some([m, d]);
    assert TakeDigits(s, 4) == Some((y, r1));
    assert [y] + [m, d] == [y, m, d];
  }

  lemma DatePatternOnlyDates(s: string)
    requires MatchPieces(s, DatePattern).Some?
    ensures DateShaped(s)
  {
    var p := DatePattern;
    var p1, p2, p3, p4 := p[1..], p[2..], p[3..], p[4..];
    assert p1[1..] == p2 && p2[1..] == p3 && p3[1..] == p4 && p4[1..] == [];
    var r1 := s[4..];
    var r2 := r1[1..];
    var r3 := r2[2..];
    var r4 := r3[1..];
    var r5 := r4[2..];
    assert 4 <= |s| && AllDigits(s[..4]);
    assert r1 != [] && r1[0] == '-';
    assert 2 <= |r2| && AllDigits(r2[..2]);
    assert r3 != [] && r3[0] == '-';
    assert 2 <= |r4| && AllDigits(r4[..2]);
    assert r5 == [];
    forall i | 0 <= i < 10 && i != 4 && i != 7 ensures IsDigit(s[i]) {
      if i < 4 { assert s[i] == s[..4][i]; }
      else if i < 7 { assert s[i] == r2[..2][i - 5]; }
      else { assert s[i] == r4[..2][i - 8]; }
    }
  }

  /** validarFormatoFecha: false on the empty string; otherwise the pattern
      must match and the groups must have lengths 4, 2 and 2 (which the
      pattern already guarantees). */
  function ValidDateFormat(s: string): (ok: bool)
    ensures ok <==> DateShaped(s)
  {
    DatePatternMatch(s);
    if s == [] then false
    else match MatchPieces(s, DatePattern)
      case None => false
      case Some(groups) =>
        |groups| == 3 && |groups[0]| == 4 && |groups[1]| == 2 && |groups[2]| == 2
  }

  function Year(s: string): (n: nat)
    requires DateShaped(s)
  {
    DigitsValue(s[..4])
  }

  function Month(s: string): (n: nat)
    requires DateShaped(s)
  {
    DigitsValue(s[5..7])
  }

  function Day(s: string): (n: nat)
    requires DateShaped(s)
  {
    DigitsValue(s[8..])
  }

  /** The calendar position of a well-formed date: year, then month, then day. */
  function DateKey(s: string): (n: nat)
    requires DateShaped(s)
  {
    Year(s) * 10000 + Month(s) * 100 + Day(s)
  }

  /** On two well-formed dates, JavaScript's string `<` is the calendar
      order (year first, then month, then day). The shape check accepts
      months and days out of their calendar range, and the order holds
      for those too. */
  lemma DateOrderIsCalendarOrder(a: string, b: string)
    requires DateShaped(a) && DateShaped(b)
    ensures LexLess(a, b) <==> DateKey(a) < DateKey(b)
  {
    var ya, ma, da := a[..4], a[5..7], a[8..];
    var yb, mb, db := b[..4], b[5..7], b[8..];
    assert a == ya + (['-'] + (ma + (['-'] + da)));
    assert b == yb + (['-'] + (mb + (['-'] + db)));
    LexLessAppend(ya, ['-'] + (ma + (['-'] + da)), yb, ['-'] + (mb + (['-'] + db)));
    LexLessAppend(['-'], ma + (['-'] + da), ['-'], mb + (['-'] + db));
    LexLessIrreflexive(['-']);
    LexLessAppend(ma, ['-'] + da, mb, ['-'] + db);
    LexLessAppend(['-'], da, ['-'], db);
    assert LexLess(a, b) <==>
      LexLess(ya, yb) || (ya == yb && (LexLess(ma, mb) || (ma == mb && LexLess(da, db))));
    LexLessDigits(ya, yb);
    LexLessDigits(ma, mb);
    LexLessDigits(da, db);
    DigitsValueInjective(ya, yb);
    DigitsValueInjective(ma, mb);
    DigitsValueBound(ma);
    DigitsValueBound(da);
    DigitsValueBound(mb);
    DigitsValueBound(db);
    KeyOrder(Year(a), Month(a), Day(a), Year(b), Month(b), Day(b));
  }

  /** Year-month-day tuples with two-digit months and days are ordered as
      their packed keys. */
  lemma KeyOrder(y1: nat, m1: nat, d1: nat, y2: nat, m2: nat, d2: nat)
    requires m1 < 100 && d1 < 100 && m2 < 100 && d2 < 100
    ensures (y1 < y2 || (y1 == y2 && (m1 < m2 || (m1 == m2 && d1 < d2)))) <==>
      y1 * 10000 + m1 * 100 + d1 < y2 * 10000 + m2 * 100 + d2
  {
    var r1, r2 := m1 * 100 + d1, m2 * 100 + d2;
    assert r1 < 10000 && r2 < 10000;
    if y1 < y2 {
      LeadingDigitDominates(y1, r1, y2, r2, 10000);
    } else if y2 < y1 {
      LeadingDigitDominates(y2, r2, y1, r1, 10000);
    } else if m1 < m2 {
      LeadingDigitDominates(m1, d1, m2, d2, 100);
    } else if m2 < m1 {
      LeadingDigitDominates(m2, d2, m1, d1, 100);
    }
  }
}
