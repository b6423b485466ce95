/**
 * The two pure string helpers of tensorpipe/common/system.cc: the timestamp
 * formatter used in log lines and the whitespace remover.
 */
module System {
  import opened Decimal

  /** Timestamps are unsigned 64-bit nanosecond counts. */
  const kMaxTimeStamp: nat := 0xFFFF_FFFF_FFFF_FFFF
  type TimeStamp = t: nat | t <= kMaxTimeStamp

  /** The "no timestamp" marker: the largest 64-bit value. */
  const kInvalidTimeStamp: TimeStamp := kMaxTimeStamp

  /** `std::setw(width) << std::setfill(fill) << s`: pad on the left up to `width`, never truncate. */
  function PadLeft(s: string, width: nat, fill: char): (r: string)
    ensures |r| == if |s| < width then width else |s|
    ensures r[|r| - |s|..] == s
    ensures forall i :: 0 <= i < |r| - |s| ==> r[i] == fill
  {
    if |s| < width then seq(width - |s|, _ => fill) + s else s
  }

  /** Render a timestamp as microseconds, "<ts/1000 padded to 9>.<ts%1000 on 3 digits>us". */
  function TstampToStr(ts: TimeStamp): (r: string)
    ensures ts == kInvalidTimeStamp ==> r == "NA"
    ensures ts != kInvalidTimeStamp ==>
      |r| >= 15 && r[|r| - 2..] == "us" && r[|r| - 6] == '.' && AllDigits(r[|r| - 5..|r| - 2])
  {
    if ts == kInvalidTimeStamp then "NA"
    else
      var whole := PadLeft(NatToString(ts / 1000), 9, ' ');
      var frac := PadLeft(NatToString(ts % 1000), 3, '0');
      assert |frac| == 3 by { ThreeDigitsAtMost(ts % 1000); }
      assert frac == Zeros(3 - |NatToString(ts % 1000)|) + NatToString(ts % 1000);
      whole + "." + frac + "us"
  }

  lemma ThreeDigitsAtMost(n: nat)
    requires n < 1000
    ensures |NatToString(n)| <= 3
  {
    if n >= 10 {
      var m := n / 10;
      assert NatToString(n) == NatToString(m) + [DigitChar(n % 10)];
      if m >= 10 {
        assert NatToString(m) == NatToString(m / 10) + [DigitChar(m % 10)];
        assert m / 10 < 10;
      }
    }
  }

  /** Drop the left padding of the integer field. */
  function TrimLeadingSpaces(s: string): (r: string)
    ensures |r| <= |s|
  {
    if s != [] && s[0] == ' ' then TrimLeadingSpaces(s[1..]) else s
  }

  /**
   * Read a formatted timestamp back: the integer field (everything before the
   * point, left padding dropped) times 1000 plus the three fraction digits.
   */
  function ParseTstamp(r: string): nat
    requires |r| >= 6 && AllDigits(TrimLeadingSpaces(r[..|r| - 6])) && AllDigits(r[|r| - 5..|r| - 2])
  {
    ParseDecimal(TrimLeadingSpaces(r[..|r| - 6])) * 1000 + ParseDecimal(r[|r| - 5..|r| - 2])
  }

  lemma {:induction false} TrimPadding(k: nat, s: string)
    requires s != [] && s[0] != ' '
    ensures TrimLeadingSpaces(seq(k, _ => ' ') + s) == s
  {
    if k > 0 {
      assert (seq(k, _ => ' ') + s)[1..] == seq(k - 1, _ => ' ') + s;
      TrimPadding(k - 1, s);
    } else {
      assert seq(k, _ => ' ') + s == s;
    }
  }

  /** Where the two fields sit in a formatted timestamp. */
  lemma FieldsOf(whole: string, frac: string)
    requires |frac| == 3
    ensures var r := whole + "." + frac + "us";
      |r| >= 6 && r[..|r| - 6] == whole && r[|r| - 5..|r| - 2] == frac
  {
  }

  /** Dropping the left padding of the integer field gives back its digits. */
  lemma TrimPadded(digits: string)
    requires digits != [] && AllDigits(digits)
    ensures TrimLeadingSpaces(PadLeft(digits, 9, ' ')) == digits
  {
    assert IsDigit(digits[0]);
    if |digits| < 9 {
      assert PadLeft(digits, 9, ' ') == seq(9 - |digits|, _ => ' ') + digits;
      TrimPadding(9 - |digits|, digits);
    }
  }

  /** `r` has the two fields `ParseTstamp` reads, and they give back `ts`. */
  predicate ReadsBackAs(r: string, ts: nat)
  {
    |r| >= 6 && AllDigits(TrimLeadingSpaces(r[..|r| - 6])) && AllDigits(r[|r| - 5..|r| - 2])
    && ParseTstamp(r) == ts
  }

  /** Parsing a string laid out as a timestamp reads the integer field and the fraction field. */
  lemma ParseFields(whole: string, frac: string, ts: nat)
    requires |frac| == 3 && AllDigits(TrimLeadingSpaces(whole)) && AllDigits(frac)
    requires ts == ParseDecimal(TrimLeadingSpaces(whole)) * 1000 + ParseDecimal(frac)
    ensures ReadsBackAs(whole + "." + frac + "us", ts)
  {
    FieldsOf(whole, frac);
  }

  /** The two fields of a formatted timestamp, with `q` in the integer field and `m` in the fraction field. */
  function Formatted(q: nat, m: nat): string
  {
    PadLeft(NatToString(q), 9, ' ') + "." + PadLeft(NatToString(m), 3, '0') + "us"
  }

  /** The integer field of `Formatted(q, m)` reads back as `q`, and its fraction field as `m`. */
  lemma FieldValues(q: nat, m: nat)
    requires m < 1000
    ensures var whole := TrimLeadingSpaces(PadLeft(NatToString(q), 9, ' '));
      AllDigits(whole) && ParseDecimal(whole) == q
    ensures var frac := PadLeft(NatToString(m), 3, '0');
      |frac| == 3 && AllDigits(frac) && ParseDecimal(frac) == m
  {
    var fracDigits := NatToString(m);
    ThreeDigitsAtMost(m);
    assert PadLeft(fracDigits, 3, '0') == Zeros(3 - |fracDigits|) + fracDigits;
    ParseZeroPadded(3 - |fracDigits|, fracDigits);
    TrimPadded(NatToString(q));
    ParseNatToString(q);
    ParseNatToString(m);
  }

  /** Reading back the two fields of `Formatted(q, m)` gives `q * 1000 + m`. */
  lemma ParseFormatted(q: nat, m: nat)
    requires m < 1000
    ensures ReadsBackAs(Formatted(q, m), q * 1000 + m)
  {
    var whole, frac := PadLeft(NatToString(q), 9, ' '), PadLeft(NatToString(m), 3, '0');
    FieldValues(q, m);
    assert Formatted(q, m) == whole + "." + frac + "us";
    ParseFields(whole, frac, q * 1000 + m);
  }

  /** The integer field and the fraction field together give back the timestamp. */
  lemma TstampRoundTrip(ts: TimeStamp)
    requires ts != kInvalidTimeStamp
    ensures ReadsBackAs(TstampToStr(ts), ts)
  {
    var q, m := ts / 1000, ts % 1000;
    assert TstampToStr(ts) == Formatted(q, m);
    ParseFormatted(q, m);
    assert q * 1000 + m == ts;
  }

  /** `std::isspace` in the "C" locale. */
  predicate IsSpace(c: char)
  {
    c == ' ' || c == '\t' || c == '\n' || c == '\U{B}' || c == '\U{C}' || c == '\r'
  }

  /** The erase/remove_if idiom on a by-value copy: keep the non-blank characters in order. */
  function RemoveBlankSpaces(s: string): (r: string)
    ensures |r| <= |s|
    ensures forall i :: 0 <= i < |r| ==> !IsSpace(r[i])
  {
    if s == [] then []
    else if IsSpace(s[0]) then RemoveBlankSpaces(s[1..])
    else [s[0]] + RemoveBlankSpaces(s[1..])
  }

  /** `sub` can be obtained from `s` by deleting characters. */
  predicate IsSubsequence(sub: string, s: string)
  {
    if sub == [] then true
    else if s == [] then false
    else if sub[0] == s[0] then IsSubsequence(sub[1..], s[1..])
    else IsSubsequence(sub, s[1..])
  }

  /** The result keeps the original order: it is a subsequence of the input. */
  lemma {:induction false} RemoveBlankSpacesKeepsOrder(s: string)
    ensures IsSubsequence(RemoveBlankSpaces(s), s)
  {
    if s != [] {
      RemoveBlankSpacesKeepsOrder(s[1..]);
      var r := RemoveBlankSpaces(s);
      if !IsSpace(s[0]) {
        assert r[1..] == RemoveBlankSpaces(s[1..]);
      } else {
        // a kept character is never the blank s[0], so matching skips it
        assert r != [] ==> r[0] != s[0];
      }
    }
  }

  /** Every non-blank character keeps its number of occurrences; blanks are all gone. */
  lemma {:induction false} RemoveBlankSpacesCounts(s: string, c: char)
    ensures multiset(RemoveBlankSpaces(s))[c] == if IsSpace(c) then 0 else multiset(s)[c]
  {
    if s != [] {
      RemoveBlankSpacesCounts(s[1..], c);
      assert s == [s[0]] + s[1..];
      if !IsSpace(s[0]) {
        assert RemoveBlankSpaces(s) == [s[0]] + RemoveBlankSpaces(s[1..]);
      }
    }
  }

  /** Removing blanks twice is the same as removing them once. */
  lemma {:induction false} RemoveBlankSpacesIdempotent(s: string)
    ensures RemoveBlankSpaces(RemoveBlankSpaces(s)) == RemoveBlankSpaces(s)
  {
    NoBlanksIsFixpoint(RemoveBlankSpaces(s));
  }

  lemma {:induction false} NoBlanksIsFixpoint(s: string)
    requires forall i :: 0 <= i < |s| ==> !IsSpace(s[i])
    ensures RemoveBlankSpaces(s) == s
  {
    if s != [] {
      NoBlanksIsFixpoint(s[1..]);
    }
  }
}
