/** Text as the database and JavaScript compare and search it. */
module Text {

  /** `a < b` on text columns and on JavaScript strings: by character, a proper prefix first. */
  predicate Less(a: string, b: string) {
    if b == "" then false
    else if a == "" then true
    else a[0] < b[0] || (a[0] == b[0] && Less(a[1..], b[1..]))
  }

  /** Less compares at the first place where the texts differ. */
  lemma {:induction false} LessIff(a: string, b: string)
    ensures Less(a, b) <==>
            exists k: nat :: k <= |a| && k < |b| && a[..k] == b[..k] && (k == |a| || a[k] < b[k])
  {
    assert a[..0] == b[..0];
    if a != "" && b != "" {
      forall k: nat | 0 < k <= |a| && k < |b| && a[..k] == b[..k]
        ensures a[0] == b[0] && a[1..][..k - 1] == b[1..][..k - 1] {
        assert a[..k][0] == b[..k][0] && a[..k][1..] == b[..k][1..];
        assert a[1..][..k - 1] == a[..k][1..] && b[1..][..k - 1] == b[..k][1..];
      }
      if a[0] == b[0] {
        LessIff(a[1..], b[1..]);
        var s, t := a[1..], b[1..];
        if k: nat :| k <= |s| && k < |t| && s[..k] == t[..k] && (k == |s| || s[k] < t[k]) {
          assert a[..k + 1] == [a[0]] + s[..k] && b[..k + 1] == [b[0]] + t[..k];
        }
        if k: nat :| k <= |a| && k < |b| && a[..k] == b[..k] && (k == |a| || a[k] < b[k]) {
          assert k > 0 && s[..k - 1] == t[..k - 1];
        }
      }
    }
  }

  /** `text LIKE '%part%'`. */
  predicate Contains(text: string, part: string) {
    part <= text || (text != "" && Contains(text[1..], part))
  }

  lemma {:induction false} ContainsIff(text: string, part: string)
    ensures Contains(text, part) <==> exists before, after :: text == before + part + after
  {
    forall after: string ensures part <= "" + part + after {
    }
    if part <= text {
      assert text == "" + part + text[|part|..];
    } else if text != "" {
      ContainsIff(text[1..], part);
      if before, after :| text[1..] == before + part + after {
        assert text == ([text[0]] + before) + part + after;
      }
      if before, after :| text == before + part + after {
        assert before != "";
        assert text[1..] == before[1..] + part + after;
      }
    }
  }

  function Digit(d: nat): char
    requires d < 10
  {
    '0' + d as char
  }

  /** A number as text, without leading zeros. */
  function Decimal(n: nat): string {
    if n < 10 then [Digit(n)] else Decimal(n / 10) + [Digit(n % 10)]
  }

  function ValueOf(digits: string): int {
    if digits == "" then 0 else 10 * ValueOf(digits[..|digits| - 1]) + (digits[|digits| - 1] as int - '0' as int)
  }

  /** It is digits only, with no zero in front, and reads as the number. */
  lemma {:induction false} DecimalReadsBack(n: nat)
    ensures ValueOf(Decimal(n)) == n && Decimal(n) != "" && (n >= 10 ==> Decimal(n)[0] != '0')
    ensures forall c | c in Decimal(n) :: '0' <= c <= '9'
  {
    if n >= 10 {
      DecimalReadsBack(n / 10);
      assert Decimal(n)[..|Decimal(n)| - 1] == Decimal(n / 10);
      assert n / 10 < 10 ==> Decimal(n / 10) == [Digit(n / 10)];
    } else {
      assert Decimal(n)[..0] == "";
    }
  }
}
