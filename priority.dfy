/**
 * Runs as the coordinator sees them, and the integer priority read from a
 * run's tags (`get_priority`, the key function of `_priority_sort`).
 */
module RunPriority {
  import opened Wrappers

  /** A queued pipeline run: its id, its pipeline's name and its tags. */
  datatype Run = Run(runId: string, pipelineName: string, tags: map<string, string>)

  /** The tag whose value holds a run's priority (dagster's PRIORITY_TAG). */
  const PriorityTag: string := "dagster/priority"

  predicate IsDigit(c: char) {
    '0' <= c <= '9'
  }

  /** A non-empty string of ASCII decimal digits. */
  predicate IsDigits(s: string) {
    |s| > 0 && forall i :: 0 <= i < |s| ==> IsDigit(s[i])
  }

  function DigitValue(c: char): (d: nat)
    requires IsDigit(c)
    ensures d < 10
  {
    c as int - '0' as int
  }

  function DigitChar(d: nat): (c: char)
    requires d < 10
    ensures IsDigit(c) && DigitValue(c) == d
  {
    ('0' as int + d) as char
  }

  /** The value of a string of decimal digits, most significant first. */
  function DigitsValue(s: string): (v: nat)
    requires forall i :: 0 <= i < |s| ==> IsDigit(s[i])
  {
    if |s| == 0 then 0 else DigitsValue(s[..|s| - 1]) * 10 + DigitValue(s[|s| - 1])
  }

  /**
   * The texts that denote an integer here: at least one digit, and every
   * character a digit except possibly a minus sign in front.
   */
  ghost predicate IsIntegerText(s: string) {
    && (exists i :: 0 <= i < |s| && IsDigit(s[i]))
    && forall k :: 0 <= k < |s| && !IsDigit(s[k]) ==> k == 0 && s[k] == '-'
  }

  lemma IntegerTextShape(s: string)
    ensures IsIntegerText(s) <==> IsDigits(s) || (|s| > 0 && s[0] == '-' && IsDigits(s[1..]))
  {
    if |s| > 0 && s[0] == '-' {
      var t := s[1..];
      assert forall i :: 0 <= i < |t| ==> t[i] == s[i + 1];
      if IsIntegerText(s) {
        var i :| 0 <= i < |s| && IsDigit(s[i]);
        assert i > 0 && t[i - 1] == s[i];
      }
      if IsDigits(t) {
        assert IsDigit(s[1]);
      }
    }
  }

  /**
   * Python's `int(text)` restricted to an optional minus sign followed by
   * decimal digits; anything else is the ValueError case, None.
   */
  function ParseInt(s: string): (r: Option<int>) {
    if |s| > 0 && s[0] == '-' then
      if IsDigits(s[1..]) then Some(-(DigitsValue(s[1..]) as int)) else None
    else if IsDigits(s) then Some(DigitsValue(s))
    else None
  }

  /** The parse succeeds exactly on the integer texts. */
  lemma ParseIntAcceptsExactly(s: string)
    ensures ParseInt(s).Some? <==> IsIntegerText(s)
  {
    IntegerTextShape(s);
  }

  /** A leading zero does not change the value of a string of digits. */
  lemma {:induction false} LeadingZeroValue(d: string)
    requires forall i :: 0 <= i < |d| ==> IsDigit(d[i])
    ensures forall i :: 0 <= i < |"0" + d| ==> IsDigit(("0" + d)[i])
    ensures DigitsValue("0" + d) == DigitsValue(d)
  {
    if |d| > 0 {
      var z := "0" + d;
      assert z[..|z| - 1] == "0" + d[..|d| - 1];
      LeadingZeroValue(d[..|d| - 1]);
    }
  }

  /** Leading zeros, after a minus sign or not, do not change the parsed value: "007" is 7 and "-0" is 0. */
  lemma ParseIntIgnoresLeadingZero(d: string)
    requires IsDigits(d)
    ensures ParseInt("0" + d) == ParseInt(d)
    ensures ParseInt("-0" + d) == ParseInt("-" + d)
    ensures ParseInt("-0") == Some(0)
  {
    LeadingZeroValue(d);
    assert ("0" + d)[0] == '0';
    assert ("-0" + d)[1..] == "0" + d;
    assert ("-" + d)[1..] == d;
    assert "-0"[1..] == "0";
  }

  /** Decimal text of a natural number, without leading zeros. */
  function NatToDigits(n: nat): (s: string)
    ensures IsDigits(s)
    ensures n > 0 ==> s[0] != '0'
  {
    if n < 10 then [DigitChar(n)] else NatToDigits(n / 10) + [DigitChar(n % 10)]
  }

  /** Decimal text of an integer, as Python's `str` writes it. */
  function IntToString(n: int): (s: string) {
    if n < 0 then "-" + NatToDigits(-n) else NatToDigits(n)
  }

  lemma {:induction false} NatToDigitsValue(n: nat)
    ensures DigitsValue(NatToDigits(n)) == n
  {
    if n >= 10 {
      NatToDigitsValue(n / 10);
      var s := NatToDigits(n);
      assert s[..|s| - 1] == NatToDigits(n / 10);
    }
  }

  /** Parsing the decimal text of any integer gives that integer back. */
  lemma ParseIntRoundTrip(n: int)
    ensures ParseInt(IntToString(n)) == Some(n)
  {
    if n < 0 {
      NatToDigitsValue(-n);
      assert IntToString(n)[1..] == NatToDigits(-n);
    } else {
      NatToDigitsValue(n);
    }
  }

  /**
   * Every text that is not an integer fails to parse: the empty text, a
   * lone minus sign, and any text with a character that is neither a digit
   * nor a leading minus.
   */
  lemma ParseIntRejectsNonInteger(s: string)
    ensures !IsIntegerText(s) ==> ParseInt(s) == None
    ensures ParseInt("") == None && ParseInt("-") == None
    ensures forall k :: 0 <= k < |s| && !IsDigit(s[k]) && !(k == 0 && s[k] == '-') ==> ParseInt(s) == None
  {
    ParseIntAcceptsExactly(s);
    ParseIntAcceptsExactly("");
    ParseIntAcceptsExactly("-");
    assert !IsIntegerText("");
    assert !IsIntegerText("-") by {
      assert forall i :: 0 <= i < |"-"| ==> !IsDigit("-"[i]);
    }
  }

  /**
   * `get_priority`: the tag's value parsed as an integer, where a missing
   * tag reads as "0" and text that does not parse counts as 0.
   */
  function GetPriority(tags: map<string, string>): (p: int)
    ensures PriorityTag !in tags ==> p == 0
    ensures PriorityTag in tags && ParseInt(tags[PriorityTag]) == None ==> p == 0
    ensures PriorityTag in tags && ParseInt(tags[PriorityTag]).Some? ==> p == ParseInt(tags[PriorityTag]).value
  {
    var text := if PriorityTag in tags then tags[PriorityTag] else "0";
    match ParseInt(text)
    case Some(n) => n
    case None => 0
  }

  function Priority(run: Run): (p: int) {
    GetPriority(run.tags)
  }

  /** A priority written as decimal text into the tag is read back unchanged. */
  lemma PriorityOfWrittenInt(tags: map<string, string>, n: int)
    ensures GetPriority(tags[PriorityTag := IntToString(n)]) == n
  {
    ParseIntRoundTrip(n);
  }

  /** Any tag value that is not an integer, "high", "" and "-" among them, gives priority 0. */
  lemma PriorityOfMalformedTag(tags: map<string, string>, text: string)
    requires !IsIntegerText(text)
    ensures GetPriority(tags[PriorityTag := text]) == 0
  {
    ParseIntRejectsNonInteger(text);
  }
}
