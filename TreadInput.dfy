/** The tread-depth (Remanente) input: each keystroke's text has its commas
    turned into dots, is kept only if it matches `^\d*(\.?\d{0,2})?$`, and
    is then read as a number (the empty text as 0, anything else with
    `parseFloat`). */
module TreadInput {
  import opened JsText

  /** What `parseFloat` can return on the texts the filter lets through:
      the lone "." is not a number, everything else a decimal value. */
  datatype Tread = NotANumber | Amount(value: real)

  /** A real with at most two decimal places. */
  predicate IsHundredths(x: real) {
    (x * 100.0).Floor as real == x * 100.0
  }

  /** `s.replace(/,/g, '.')`. */
  function ReplaceCommas(s: string): (r: string)
    ensures |r| == |s|
    ensures forall i :: 0 <= i < |s| ==> r[i] == if s[i] == ',' then '.' else s[i]
  {
    if s == [] then [] else [if s[0] == ',' then '.' else s[0]] + ReplaceCommas(s[1..])
  }

  /** The greedy `\d*` at the start of `s`: the length of the leading digit run. */
  function LeadingDigits(s: string): (k: nat)
    ensures k <= |s| && AllDigits(s[..k])
    ensures k < |s| ==> !IsDigit(s[k])
  {
    if s == [] || !IsDigit(s[0]) then 0
    else
      var k := 1 + LeadingDigits(s[1..]);
      assert s[..k] == [s[0]] + s[1..][..k - 1];
      k
  }

  /** A digit run of length i at the start of `s` is covered by the greedy run. */
  lemma {:induction false} LeadingDigitsAtLeast(s: string, i: nat)
    requires i <= |s| && AllDigits(s[..i])
    ensures i <= LeadingDigits(s)
  {
    if i > 0 {
      assert s[0] == s[..i][0];
      assert s[1..][..i - 1] == s[..i][1..];
      LeadingDigitsAtLeast(s[1..], i - 1);
    }
  }

  /** The greedy run stops at the first non-digit. */
  lemma {:induction false} LeadingDigitsAtMost(s: string, i: nat)
    requires i < |s| && !IsDigit(s[i])
    ensures LeadingDigits(s) <= i
  {
    if i > 0 && IsDigit(s[0]) {
      LeadingDigitsAtMost(s[1..], i - 1);
    }
  }

  /** The language of `^\d*(\.?\d{0,2})?$`: a run of digits `s[..i]`, an
      optional dot `s[i..j]`, and at most two digits `s[j..]`. The optional
      group is absent exactly when it would match the empty text, so it
      adds no further strings. */
  ghost predicate MatchesTreadPattern(s: string) {
    exists i, j :: 0 <= i <= j <= |s| && AllDigits(s[..i]) &&
      (j == i || (j == i + 1 && s[i] == '.')) &&
      |s| - j <= 2 && AllDigits(s[j..])
  }

  /** The keystroke filter, matching greedily: after the leading digit run
      there must be nothing, or a dot and at most two digits. */
  function AcceptsTread(s: string): (ok: bool)
    ensures ok <==> MatchesTreadPattern(s)
    ensures ok ==> forall i :: 0 <= i < |s| ==> IsDigit(s[i]) || s[i] == '.'
  {
    var k := LeadingDigits(s);
    var ok := k == |s| || (s[k] == '.' && |s| - (k + 1) <= 2 && AllDigits(s[k + 1..]));
    assert ok ==> MatchesTreadPattern(s) by {
      if ok && k == |s| {
        assert s[|s|..] == [];
        assert AllDigits(s[..k]) && AllDigits(s[k..]);
      } else if ok {
        assert AllDigits(s[..k]) && s[k] == '.' && AllDigits(s[k + 1..]);
      }
    }
    assert MatchesTreadPattern(s) ==> ok by {
      if MatchesTreadPattern(s) {
        var i, j :| 0 <= i <= j <= |s| && AllDigits(s[..i]) &&
          (j == i || (j == i + 1 && s[i] == '.')) &&
          |s| - j <= 2 && AllDigits(s[j..]);
        if j == i {
          assert AllDigits(s) by {
            forall p | 0 <= p < |s| ensures IsDigit(s[p]) {
              if p < i { assert s[p] == s[..i][p]; } else { assert s[p] == s[j..][p - j]; }
            }
          }
          assert s[..|s|] == s;
          LeadingDigitsAtLeast(s, |s|);
        } else {
          LeadingDigitsAtLeast(s, i);
          LeadingDigitsAtMost(s, i);
        }
      }
    }
    assert ok ==> forall i :: 0 <= i < |s| ==> IsDigit(s[i]) || s[i] == '.' by {
      if ok {
        forall i | 0 <= i < |s| ensures IsDigit(s[i]) || s[i] == '.' {
          if i < k { assert s[i] == s[..k][i]; }
          else if i > k { assert s[i] == s[k + 1..][i - k - 1]; }
        }
      }
    }
    ok
  }

  /** Hundredths denoted by an integer part and a fraction of at most two digits. */
  function Hundredths(whole: string, frac: string): (h: nat)
    requires AllDigits(whole) && AllDigits(frac) && |frac| <= 2
  {
    DigitsValue(whole) * 100 + DigitsValue(frac) * Pow10(2 - |frac|)
  }

  /** `value === '' ? 0 : parseFloat(value)` on a text the filter accepted.
      A missing integer part reads as 0 (".5" is 0.5), a missing fraction
      too ("5." is 5); the lone "." is not a number. */
  function ParseTread(s: string): (t: Tread)
    requires AcceptsTread(s)
    ensures t.NotANumber? <==> s == "."
    ensures s == [] ==> t == Amount(0.0)
    ensures AllDigits(s) ==> t == Amount(DigitsValue(s) as real)
    ensures t.Amount? ==> 0.0 <= t.value && IsHundredths(t.value)
  {
    var k := LeadingDigits(s);
    if k == |s| then
      assert s[..k] == s;
      WholeIsHundredths(DigitsValue(s));
      Amount(DigitsValue(s) as real)
    else
      assert s[k] == '.' && !AllDigits(s);
      if k == 0 && |s| == 1 then
        assert s == ".";
        NotANumber
      else
        assert s != ".";
        var h := Hundredths(s[..k], s[k + 1..]);
        HundredthsScale(h);
        Amount(h as real / 100.0)
  }

  lemma WholeIsHundredths(v: nat)
    ensures IsHundredths(v as real)
  {
    assert v as real * 100.0 == (v * 100) as real;
  }

  lemma HundredthsScale(h: nat)
    ensures 0.0 <= h as real / 100.0 && IsHundredths(h as real / 100.0)
  {
    assert (h as real / 100.0) * 100.0 == h as real;
  }

  /** A text with a dot reads as its integer part plus its fraction:
      "1.5" as 1.5, ".5" as 0.5, "007.25" as 7.25 and "5." as 5. */
  lemma ParseDottedTread(w: string, f: string)
    requires AllDigits(w) && AllDigits(f) && |f| <= 2 && w + f != []
    ensures AcceptsTread(w + "." + f)
    ensures ParseTread(w + "." + f) ==
      Amount(DigitsValue(w) as real + DigitsValue(f) as real / Pow10(|f|) as real)
  {
    var s := w + "." + f;
    assert s[..|w|] == w;
    LeadingDigitsAtLeast(s, |w|);
    LeadingDigitsAtMost(s, |w|);
    var k := LeadingDigits(s);
    assert s[..k] == w && s[k + 1..] == f;
    assert |s| != 1 by {
      if w == [] { assert |f| > 0; }
    }
    FractionScale(DigitsValue(w), DigitsValue(f), |f|);
  }

  /** Hundredths of an integer part and a fraction of 0, 1 or 2 digits. */
  lemma FractionScale(vw: nat, vf: nat, len: nat)
    requires len <= 2
    ensures (vw * 100 + vf * Pow10(2 - len)) as real / 100.0 ==
      vw as real + vf as real / Pow10(len) as real
  {
    if len == 0 {
      assert Pow10(2) == 100;
    } else if len == 1 {
      assert Pow10(1) == 10;
    } else {
      assert Pow10(2) == 100 && Pow10(0) == 1;
    }
  }

  /** The text an amount of n hundredths is typed as: 1205 as "12.05". */
  function FormatHundredths(n: nat): (s: string) {
    NatToDigits(n / 100) + "." + [DigitChar(n % 100 / 10), DigitChar(n % 100 % 10)]
  }

  /** Every non-negative amount with two decimals can be typed into the field
      and is read back exactly. */
  lemma FormatHundredthsRoundTrip(n: nat)
    ensures AcceptsTread(FormatHundredths(n))
    ensures ParseTread(FormatHundredths(n)) == Amount(n as real / 100.0)
  {
    var w, f := NatToDigits(n / 100), [DigitChar(n % 100 / 10), DigitChar(n % 100 % 10)];
    assert FormatHundredths(n) == w + "." + f;
    assert AllDigits(f);
    assert f[..1][..0] == [] && f[..1][0] == f[0];
    assert DigitsValue(f[..1]) == DigitValue(f[0]);
    assert DigitsValue(f) == n % 100;
    ParseDottedTread(w, f);
    assert Pow10(2) == 100;
    assert (n / 100) as real + (n % 100) as real / 100.0 == n as real / 100.0;
  }
}
