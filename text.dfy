/** The string operations the core uses: `padStart(8, '0')` for asset codes,
    `toLowerCase` and `includes` for search, `parseInt` for filter values and
    number-to-string conversion for chart labels. */
module Text {
  import opened Wrappers

  /** Every stored asset code is at least this long. */
  const AssetCodeLength: nat := 8

  /** A run of `n` zero characters. */
  function Zeros(n: nat): (z: string)
    ensures |z| == n
    ensures forall i :: 0 <= i < n ==> z[i] == '0'
  {
    if n == 0 then "" else "0" + Zeros(n - 1)
  }

  /** `code.padStart(8, '0')`: zeros are added on the left up to length 8;
      a code of 8 or more characters is returned as is. */
  function PadAssetCode(code: string): (r: string)
    ensures |r| == if |code| >= AssetCodeLength then |code| else AssetCodeLength
    ensures r[|r| - |code|..] == code
    ensures forall i :: 0 <= i < |r| - |code| ==> r[i] == '0'
  {
    if |code| >= AssetCodeLength then code
    else Zeros(AssetCodeLength - |code|) + code
  }

  /** Padding twice is padding once. */
  lemma PadIdempotent(code: string)
    ensures PadAssetCode(PadAssetCode(code)) == PadAssetCode(code)
  {
  }

  /** A code is left alone by padding exactly when it already has the full length. */
  lemma PadFixedPoint(code: string)
    ensures PadAssetCode(code) == code <==> |code| >= AssetCodeLength
  {
  }

  /** A leading zero on a short code does not change the padded form, so
      "789", "0789" and "00000789" all name the same stored code. */
  lemma PadIgnoresLeadingZero(code: string)
    requires |code| < AssetCodeLength
    ensures PadAssetCode("0" + code) == PadAssetCode(code)
  {
    var n := AssetCodeLength - |code|;
    var longer := "0" + code;
    ZerosSnoc(n - 1);
    assert PadAssetCode(code) == Zeros(n) + code;
    if n == 1 {
      assert PadAssetCode(longer) == longer;
      assert Zeros(0) == "";
    } else {
      assert PadAssetCode(longer) == Zeros(n - 1) + longer;
    }
    assert Zeros(n - 1) + longer == (Zeros(n - 1) + "0") + code;
  }

  lemma {:induction false} ZerosSnoc(n: nat)
    ensures Zeros(n + 1) == Zeros(n) + "0"
  {
    if n > 0 {
      ZerosSnoc(n - 1);
    }
  }

  /** The scanned or typed short code "789" becomes the stored "00000789". */
  lemma PadExample()
    ensures PadAssetCode("789") == "00000789"
    ensures PadAssetCode("55") == "00000055"
    ensures PadAssetCode("00055789") == "00055789"
  {
  }

  /** `toLowerCase` on one character (ASCII letters only). */
  function LowerChar(c: char): (d: char)
  {
    if 'A' <= c <= 'Z' then (c as int - 'A' as int + 'a' as int) as char else c
  }

  /** `toLowerCase` on a string (ASCII letters only). */
  function Lower(s: string): (r: string)
    ensures |r| == |s|
    ensures forall i :: 0 <= i < |s| ==> r[i] == LowerChar(s[i])
  {
    if s == "" then "" else [LowerChar(s[0])] + Lower(s[1..])
  }

  /** Lower-casing is idempotent: a lower-cased string has no upper-case letter. */
  lemma LowerIdempotent(s: string)
    ensures Lower(Lower(s)) == Lower(s)
    ensures forall i :: 0 <= i < |s| ==> !('A' <= Lower(s)[i] <= 'Z')
  {
  }

  /** `t` occurs in `s` at position `i`. */
  predicate OccursAt(s: string, t: string, i: int)
  {
    0 <= i && i + |t| <= |s| && s[i..i + |t|] == t
  }

  /** `s.includes(t)`: `t` is a substring of `s`; the empty string is a
      substring of everything. */
  function Contains(s: string, t: string): (b: bool)
    ensures t == "" ==> b
    ensures b ==> |t| <= |s|
  {
    (|t| <= |s| && s[..|t|] == t) || (s != "" && Contains(s[1..], t))
  }

  /** `Contains` holds exactly when some position of `s` starts an occurrence of `t`. */
  lemma {:induction false} ContainsIff(s: string, t: string)
    ensures Contains(s, t) <==> exists i :: OccursAt(s, t, i)
  {
    if |t| <= |s| && s[..|t|] == t {
      assert OccursAt(s, t, 0);
    } else if s == "" {
      // here `t` is not empty, so it has no occurrence in the empty string
    } else {
      ContainsIff(s[1..], t);
      if Contains(s[1..], t) {
        var i :| OccursAt(s[1..], t, i);
        assert s[i + 1..i + 1 + |t|] == s[1..][i..i + |t|];
        assert OccursAt(s, t, i + 1);
      }
      if exists i :: OccursAt(s, t, i) {
        var i :| OccursAt(s, t, i);
        assert i != 0;
        assert s[1..][i - 1..i - 1 + |t|] == s[i..i + |t|];
        assert OccursAt(s[1..], t, i - 1);
      }
    }
  }

  /** The search of the assets table: "note" is found in "Notebook" once
      both sides are lower-cased, and so is "NOTE". */
  lemma SearchExample()
    ensures Contains(Lower("Notebook"), Lower("note"))
    ensures Contains(Lower("Notebook"), Lower("NOTE"))
  {
    var note := Lower("note");
    assert note == "note" by {
      assert |note| == 4 && note[0] == 'n' && note[1] == 'o' && note[2] == 't' && note[3] == 'e';
    }
    var upper := Lower("NOTE");
    assert upper == "note" by {
      assert |upper| == 4 && upper[0] == 'n' && upper[1] == 'o' && upper[2] == 't' && upper[3] == 'e';
    }
    var d := Lower("Notebook");
    assert d[..4] == "note" by {
      assert d[0] == 'n' && d[1] == 'o' && d[2] == 't' && d[3] == 'e';
    }
  }

  function DigitValue(c: char): (d: nat)
    requires '0' <= c <= '9'
    ensures d < 10
  {
    c as int - '0' as int
  }

  function DigitChar(d: nat): (c: char)
    requires d < 10
    ensures '0' <= c <= '9' && DigitValue(c) == d
  {
    ('0' as int + d) as char
  }

  predicate AllDigits(s: string)
  {
    forall i :: 0 <= i < |s| ==> '0' <= s[i] <= '9'
  }

  /** The value of a decimal numeral. */
  function DecimalValue(s: string): (n: nat)
    requires AllDigits(s)
  {
    if s == "" then 0
    else 10 * DecimalValue(s[..|s| - 1]) + DigitValue(s[|s| - 1])
  }

  /** `parseInt(s)` for an optional minus sign followed by decimal digits;
      every other string is `NaN`, which no number equals (`None`). */
  function ParseInt(s: string): (r: Option<int>)
    ensures r.Some? ==> s != ""
  {
    if s != "" && AllDigits(s) then Some(DecimalValue(s))
    else if |s| >= 2 && s[0] == '-' && AllDigits(s[1..]) then Some(0 - DecimalValue(s[1..]) as int)
    else None
  }

  /** The decimal numeral of a natural number, as JavaScript prints it. */
  function NatToString(n: nat): (s: string)
    ensures s != "" && AllDigits(s)
  {
    if n < 10 then [DigitChar(n)]
    else NatToString(n / 10) + [DigitChar(n % 10)]
  }

  /** `String(n)` for an integer `n`. */
  function IntToString(n: int): (s: string)
    ensures s != ""
  {
    if n < 0 then "-" + NatToString(-n) else NatToString(n)
  }

  lemma {:induction false} NatToStringValue(n: nat)
    ensures DecimalValue(NatToString(n)) == n
  {
    if n >= 10 {
      var s := NatToString(n);
      assert s[..|s| - 1] == NatToString(n / 10);
      NatToStringValue(n / 10);
    }
  }

  /** Printing an integer and parsing it back gives the integer: a select
      option rendered from a location code parses back to that code. */
  lemma ParseIntToString(n: int)
    ensures ParseInt(IntToString(n)) == Some(n)
  {
    if n < 0 {
      var t := NatToString(-n);
      var s := "-" + t;
      assert s == IntToString(n);
      assert s[0] == '-';
      assert s[1..] == t;
      NatToStringValue(-n);
      assert ParseInt(s) == Some(0 - DecimalValue(t) as int);
    } else {
      NatToStringValue(n);
    }
  }
}
