/**
  Octal file modes: the pattern the validators accept, the parser the builder uses, and the
  normalisation the helper configuration applies.
 */
module FileModes {
  import opened Text

  const DEFAULT_FILE_MODE := "0644"

  predicate OctalDigit(c: char) { '0' <= c <= '7' }

  predicate AllOctal(s: string)
  {
    forall i :: 0 <= i < |s| ==> OctalDigit(s[i])
  }

  /** The regular expression ^0?[0-7]{3}$. */
  predicate MatchesModePattern(s: string)
  {
    AllOctal(s) && (|s| == 3 || (|s| == 4 && s[0] == '0'))
  }

  function OctalValue(s: string): (v: nat)
    requires AllOctal(s)
  {
    if s == [] then 0 else OctalValue(s[..|s| - 1]) * 8 + (s[|s| - 1] as int - '0' as int)
  }

  /** Conversion of an unsigned 32-bit value to int32: the upper half wraps to negatives. */
  function ToInt32(n: nat): (r: int)
    requires n < 0x1_0000_0000
  {
    if n < 0x8000_0000 then n else n - 0x1_0000_0000
  }

  /** strconv.ParseUint(mode, 8, 32) followed by the conversion to int32. */
  function ParseFileMode(mode: string): Option<int>
  {
    if mode != "" && AllOctal(mode) && OctalValue(mode) < 0x1_0000_0000
    then Some(ToInt32(OctalValue(mode)))
    else None
  }

  lemma {:induction false} OctalBound(s: string)
    requires AllOctal(s) && |s| <= 3
    ensures OctalValue(s) <= 511
    ensures |s| <= 2 ==> OctalValue(s) <= 63
    ensures |s| <= 1 ==> OctalValue(s) <= 7
  {
    if s != [] {
      OctalBound(s[..|s| - 1]);
    }
  }

  lemma {:induction false} OctalLeadingZero(s: string)
    requires AllOctal(s)
    ensures AllOctal("0" + s) && OctalValue("0" + s) == OctalValue(s)
  {
    var z := "0" + s;
    if s == [] {
      assert z[..0] == [];
    } else {
      OctalLeadingZero(s[..|s| - 1]);
      assert z[..|z| - 1] == "0" + s[..|s| - 1];
    }
  }

  /** Whatever the pattern accepts the parser accepts too, as a permission set within 0..511. */
  lemma {:induction false} PatternParses(mode: string)
    requires MatchesModePattern(mode)
    ensures ParseFileMode(mode).Some? && 0 <= ParseFileMode(mode).value <= 511
    ensures ParseFileMode(mode).value == OctalValue(mode)
  {
    if |mode| == 3 {
      OctalBound(mode);
    } else {
      assert mode == "0" + mode[1..];
      OctalLeadingZero(mode[1..]);
      OctalBound(mode[1..]);
    }
  }

  lemma {:induction false} OctalTrailingZeros(s: string, n: nat, zeros: string, scale: nat)
    requires AllOctal(s) && |zeros| == n && forall i :: 0 <= i < n ==> zeros[i] == '0'
    requires scale == Pow8(n)
    ensures AllOctal(s + zeros) && OctalValue(s + zeros) == OctalValue(s) * scale
  {
    if n == 0 {
      assert s + zeros == s;
    } else {
      OctalTrailingZeros(s, n - 1, zeros[..n - 1], Pow8(n - 1));
      assert (s + zeros)[..|s| + n - 1] == s + zeros[..n - 1];
    }
  }

  function Pow8(n: nat): nat { if n == 0 then 1 else 8 * Pow8(n - 1) }

  lemma {:induction false} OctalZero(s: string)
    requires AllOctal(s)
    ensures OctalValue(s) == 0 <==> forall i :: 0 <= i < |s| ==> s[i] == '0'
  {
    if s != [] {
      var front := s[..|s| - 1];
      OctalZero(front);
      assert forall i :: 0 <= i < |front| ==> front[i] == s[i];
    }
  }

  lemma {:induction false} LastThree(s: string)
    requires AllOctal(s) && |s| >= 3
    ensures 512 * OctalValue(s[..|s| - 3]) <= OctalValue(s) < 512 * OctalValue(s[..|s| - 3]) + 512
  {
    var n := |s|;
    var a, b, c := s[..n - 1], s[..n - 2], s[..n - 3];
    assert a[..n - 2] == b && b[..n - 3] == c;
    assert OctalDigit(s[n - 1]) && OctalDigit(a[n - 2]) && OctalDigit(b[n - 3]);
    assert OctalValue(b) == OctalValue(c) * 8 + (b[n - 3] as int - '0' as int);
    assert OctalValue(a) == OctalValue(b) * 8 + (a[n - 2] as int - '0' as int);
  }

  /**
    The builder's parser yields a mode Kubernetes takes, 0 to 0777, exactly for octal numerals
    whose digits before the last three are zeros.
   */
  lemma ParsedInRange(mode: string)
    ensures ParseFileMode(mode).Some? && 0 <= ParseFileMode(mode).value <= 511
            <==> mode != "" && AllOctal(mode) && forall i :: 0 <= i < |mode| - 3 ==> mode[i] == '0'
  {
    if mode != "" && AllOctal(mode) {
      if |mode| <= 3 {
        OctalBound(mode);
      } else {
        LastThree(mode);
        OctalZero(mode[..|mode| - 3]);
        hide OctalValue;
      }
    }
  }

  /** The parser alone is laxer: a mode of any width parses, and from 2^31 up it turns negative. */
  lemma ParserLaxerThanPattern()
    ensures !MatchesModePattern("1777") && ParseFileMode("1777") == Some(1023)
    ensures !MatchesModePattern("7") && ParseFileMode("7") == Some(7)
    ensures !MatchesModePattern("20000000000") && ParseFileMode("20000000000") == Some(-0x8000_0000)
  {
    var big := "20000000000";
    assert "7"[..0] == "" && "1777"[..3] == "177" && "177"[..2] == "17" && "17"[..1] == "1" && "1"[..0] == "";
    assert Pow8(10) == 0x4000_0000;
    OctalTrailingZeros("2", 10, "0000000000", 0x4000_0000);
    assert "2"[..0] == "";
    assert big == "2" + "0000000000";
  }
}
