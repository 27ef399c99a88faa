/** Identifier policy: the work-order id format `MA-YY-NNNN`, the next
    work-order id (generateNextWorkOrderId) and request ids `SOL-NNNN`
    (handleSolicitudSubmit). */
module Ids {
  import opened Common

  predicate IsDigit(c: char) {
    '0' <= c <= '9'
  }

  predicate AllDigits(s: string) {
    forall i :: 0 <= i < |s| ==> IsDigit(s[i])
  }

  /** The id pattern `^MA-\d{2}-\d{4}$` checked before a work order is saved. */
  predicate IsValidOrderId(s: string) {
    |s| == 10 && s[..3] == "MA-" && AllDigits(s[3..5]) && s[5] == '-' && AllDigits(s[6..])
  }

  function DigitChar(d: nat): (c: char)
    requires d < 10
    ensures IsDigit(c)
  {
    ('0' as int + d) as char
  }

  function DigitValue(c: char): (d: nat)
    requires IsDigit(c)
    ensures d < 10
  {
    c as int - '0' as int
  }

  /** `n.toString()` for a non-negative integer: decimal, no leading zeros. */
  function DecimalString(n: nat): (s: string)
    ensures |s| >= 1 && AllDigits(s)
    decreases n
  {
    if n < 10 then [DigitChar(n)] else DecimalString(n / 10) + [DigitChar(n % 10)]
  }

  /** The value of a string of decimal digits, most significant first. */
  function DigitsValue(s: string): nat
    requires AllDigits(s)
  {
    if s == [] then 0 else DigitsValue(s[..|s| - 1]) * 10 + DigitValue(s[|s| - 1])
  }

  function Pow10(k: nat): (p: nat)
    ensures p >= 1
  {
    if k == 0 then 1 else 10 * Pow10(k - 1)
  }

  /** `s.padStart(width, '0')`: zeros on the left up to `width`; a longer
      string is left as it is. */
  function PadZeros(s: string, width: nat): (r: string)
    ensures |r| == if |s| >= width then |s| else width
    ensures r[|r| - |s|..] == s
    ensures forall i :: 0 <= i < |r| - |s| ==> r[i] == '0'
  {
    if |s| >= width then s else seq(width - |s|, _ => '0') + s
  }

  /** The characters up to the next '-': what `id.split('-')[2]` yields once
      the prefix `MA-YY-` (which holds exactly two dashes) is removed. */
  function UpToDash(s: string): (r: string)
    ensures |r| <= |s| && r == s[..|r|]
    ensures forall i :: 0 <= i < |r| ==> r[i] != '-'
    ensures |r| < |s| ==> s[|r|] == '-'
  {
    if s == [] || s[0] == '-' then [] else [s[0]] + UpToDash(s[1..])
  }

  /** The white space `parseInt` skips before the number: ECMAScript's
      white space (tab, vertical tab, form feed, the byte order mark and
      every Unicode space separator) and its line terminators. */
  predicate IsJsSpace(c: char) {
    c in {'\t', '\U{000B}', '\U{000C}', '\U{FEFF}'} || IsSpaceSeparator(c) ||
    c in {'\n', '\r', '\U{2028}', '\U{2029}'}
  }

  /** The characters of Unicode's Space_Separator category (Zs). */
  predicate IsSpaceSeparator(c: char) {
    c in {' ', '\U{00A0}', '\U{1680}', '\U{202F}', '\U{205F}', '\U{3000}'} || '\U{2000}' <= c <= '\U{200A}'
  }

  function SkipSpaces(s: string): (r: string)
    ensures |r| <= |s|
    ensures r == s[|s| - |r|..]
    ensures r != [] ==> !IsJsSpace(r[0])
  {
    if s != [] && IsJsSpace(s[0]) then SkipSpaces(s[1..]) else s
  }

  function TakeDigits(s: string): (r: string)
    ensures |r| <= |s| && r == s[..|r|] && AllDigits(r)
    ensures |r| < |s| ==> !IsDigit(s[|r|])
  {
    if s == [] || !IsDigit(s[0]) then [] else [s[0]] + TakeDigits(s[1..])
  }

  predicate IsHexDigit(c: char) {
    IsDigit(c) || 'a' <= c <= 'f' || 'A' <= c <= 'F'
  }

  function HexDigitValue(c: char): (d: nat)
    requires IsHexDigit(c)
    ensures d < 16
  {
    if IsDigit(c) then DigitValue(c)
    else if 'a' <= c <= 'f' then c as int - 'a' as int + 10
    else c as int - 'A' as int + 10
  }

  function TakeHexDigits(s: string): (r: string)
    ensures |r| <= |s| && r == s[..|r|]
    ensures forall i :: 0 <= i < |r| ==> IsHexDigit(r[i])
  {
    if s == [] || !IsHexDigit(s[0]) then [] else [s[0]] + TakeHexDigits(s[1..])
  }

  function HexValue(s: string): nat
    requires forall i :: 0 <= i < |s| ==> IsHexDigit(s[i])
  {
    if s == [] then 0 else HexValue(s[..|s| - 1]) * 16 + HexDigitValue(s[|s| - 1])
  }

  /** `parseInt(field)` on a field that holds no '-': leading white space is
      skipped, one '+' is allowed, "0x"/"0X" selects base 16, and the longest
      run of digits is read; no digit at all gives NaN (`None`). */
  function ParseIntField(field: string): Option<nat>
  {
    var t := SkipSpaces(field);
    var u := if t != [] && t[0] == '+' then t[1..] else t;
    if |u| >= 2 && u[0] == '0' && (u[1] == 'x' || u[1] == 'X') then
      var h := TakeHexDigits(u[2..]);
      if h == [] then None else Some(HexValue(h))
    else
      var d := TakeDigits(u);
      if d == [] then None else Some(DigitsValue(d))
  }

  /** `parseInt` skips any Unicode space separator before the digits, such
      as the ideographic space U+3000. */
  lemma SpaceSeparatorSkipped()
    ensures ParseIntField("\U{3000}7") == Some(7)
  {
    var field := "\U{3000}7";
    SkipOneSpace(field, "7");
    ParseDigitsAfterSpaces(field, "7");
    assert DigitsValue("7") == 7;
  }

  /** A single white-space character before a non-space is skipped. */
  lemma SkipOneSpace(field: string, rest: string)
    requires |field| >= 1 && IsJsSpace(field[0]) && field[1..] == rest
    requires rest != [] && !IsJsSpace(rest[0])
    ensures SkipSpaces(field) == rest
  {
  }

  /** Digits after leading white space read as their value. */
  lemma ParseDigitsAfterSpaces(field: string, digits: string)
    requires SkipSpaces(field) == digits && |digits| >= 1 && AllDigits(digits)
    ensures ParseIntField(field) == Some(DigitsValue(digits))
  {
    TakeDigitsAll(digits);
    assert digits[0] != '+';
    assert |digits| >= 2 ==> digits[1] != 'x' && digits[1] != 'X';
  }

  /** `parseInt` gives NaN for a field that holds only white space, or whose
      first other character is neither a digit nor a sign. */
  lemma ParseIntFieldNaN(field: string)
    requires SkipSpaces(field) == [] || (!IsDigit(SkipSpaces(field)[0]) && SkipSpaces(field)[0] != '+')
    ensures ParseIntField(field).None?
  {
  }

  /** The sequence number of an id with the prefix: `parseInt(id.split('-')[2])`,
      none for an id without the prefix or whose number is NaN. */
  function SequenceNumber(prefix: string, id: string): Option<nat> {
    if |prefix| <= |id| && id[..|prefix|] == prefix then ParseIntField(UpToDash(id[|prefix|..])) else None
  }

  /** The sequence numbers of the ids that have one, in order. */
  function SequenceNumbers(prefix: string, ids: seq<string>): seq<nat> {
    if ids == [] then []
    else
      var rest := SequenceNumbers(prefix, ids[1..]);
      match SequenceNumber(prefix, ids[0])
      case Some(n) => [n] + rest
      case None => rest
  }

  /** Every id that has a sequence number contributes it. */
  lemma {:induction false} SequenceNumbersHas(prefix: string, ids: seq<string>, i: nat)
    requires i < |ids| && SequenceNumber(prefix, ids[i]).Some?
    ensures SequenceNumber(prefix, ids[i]).value in SequenceNumbers(prefix, ids)
  {
    if i > 0 {
      SequenceNumbersHas(prefix, ids[1..], i - 1);
    }
  }

  /** `Math.max(...ns)` when there is a number, 0 otherwise. */
  function MaxOrZero(ns: seq<nat>): (m: nat)
    ensures forall i :: 0 <= i < |ns| ==> ns[i] <= m
    ensures ns != [] ==> m in ns
    ensures ns == [] ==> m == 0
  {
    if ns == [] then 0
    else if |ns| == 1 then ns[0]
    else
      var m := MaxOrZero(ns[1..]);
      if ns[0] >= m then ns[0] else m
  }

  /** `prefix` followed by 1 + the largest sequence number among the ids with
      that prefix, zero-padded to four digits. */
  function NextSequencedId(prefix: string, ids: seq<string>): string {
    PrefixedNumber(prefix, MaxOrZero(SequenceNumbers(prefix, ids)) + 1)
  }

  /** `prefix + n.toString().padStart(4, '0')`. */
  function PrefixedNumber(prefix: string, n: nat): string {
    prefix + PadZeros(DecimalString(n), 4)
  }

  /** `year.toString().slice(-2)`. */
  function YearSuffix(year: nat): string {
    var s := DecimalString(year);
    if |s| >= 2 then s[|s| - 2..] else s
  }

  function OrderIdPrefix(year: nat): string {
    "MA-" + YearSuffix(year) + "-"
  }

  /** Source: generateNextWorkOrderId, with the current year as a parameter. */
  function NextWorkOrderId(year: nat, ids: seq<string>): (r: string)
    ensures |OrderIdPrefix(year)| + 4 <= |r| && r[..|OrderIdPrefix(year)|] == OrderIdPrefix(year)
  {
    NextSequencedId(OrderIdPrefix(year), ids)
  }

  // ---- Decimal strings ----

  lemma {:induction false} DecimalRoundTrip(n: nat)
    ensures DigitsValue(DecimalString(n)) == n
    decreases n
  {
    if n >= 10 {
      var s := DecimalString(n / 10) + [DigitChar(n % 10)];
      assert s[..|s| - 1] == DecimalString(n / 10);
      DecimalRoundTrip(n / 10);
    }
  }

  lemma {:induction false} ZerosValue(z: nat)
    ensures AllDigits(seq(z, _ => '0')) && DigitsValue(seq(z, _ => '0')) == 0
  {
    if z > 0 {
      assert seq(z, _ => '0')[..z - 1] == seq(z - 1, _ => '0');
      ZerosValue(z - 1);
    }
  }

  /** Leading zeros do not change the value of a digit string. */
  lemma {:induction false} LeadingZerosValue(z: nat, s: string)
    requires AllDigits(s)
    ensures AllDigits(seq(z, _ => '0') + s)
    ensures DigitsValue(seq(z, _ => '0') + s) == DigitsValue(s)
    decreases |s|
  {
    var zs := seq(z, _ => '0');
    if s == [] {
      assert zs + s == zs;
      ZerosValue(z);
    } else {
      var s' := s[..|s| - 1];
      assert (zs + s)[..|zs + s| - 1] == zs + s';
      LeadingZerosValue(z, s');
    }
  }

  lemma PadZerosValue(s: string, width: nat)
    requires AllDigits(s)
    ensures AllDigits(PadZeros(s, width)) && DigitsValue(PadZeros(s, width)) == DigitsValue(s)
  {
    if |s| < width {
      LeadingZerosValue(width - |s|, s);
    }
  }

  /** A decimal string has at most `k` digits exactly when the number is
      below 10^k. */
  lemma {:induction false} DecimalLength(n: nat, k: nat)
    requires k >= 1
    ensures |DecimalString(n)| <= k <==> n < Pow10(k)
    decreases n
  {
    if n >= 10 {
      if k == 1 {
        assert Pow10(1) == 10;
      } else {
        DecimalLength(n / 10, k - 1);
        assert n / 10 < Pow10(k - 1) <==> n < 10 * Pow10(k - 1);
      }
    } else {
      PowAtLeastTen(k);
    }
  }

  lemma {:induction false} PowAtLeastTen(k: nat)
    requires k >= 1
    ensures Pow10(k) >= 10
  {
    if k > 1 {
      PowAtLeastTen(k - 1);
    }
  }

  // ---- Parsing what was generated ----

  /** Every id that passes the save-time format check is counted by the id
      generator: its number is the value of its last four digits. */
  lemma ValidOrderIdNumber(s: string)
    requires IsValidOrderId(s)
    ensures SequenceNumber(s[..6], s) == Some(DigitsValue(s[6..]))
  {
    ParseDigitField(s[6..]);
  }

  /** A generated sequence field reads back as the number it was made from. */
  lemma ParseDigitField(s: string)
    requires |s| >= 1 && AllDigits(s)
    ensures UpToDash(s) == s
    ensures ParseIntField(s) == Some(DigitsValue(s))
  {
    UpToDashNoDash(s);
    TakeDigitsAll(s);
    assert !IsJsSpace(s[0]);
    assert SkipSpaces(s) == s;
  }

  lemma {:induction false} UpToDashNoDash(s: string)
    requires AllDigits(s)
    ensures UpToDash(s) == s
  {
    if s != [] {
      UpToDashNoDash(s[1..]);
    }
  }

  lemma {:induction false} TakeDigitsAll(s: string)
    requires AllDigits(s)
    ensures TakeDigits(s) == s
  {
    if s != [] {
      TakeDigitsAll(s[1..]);
    }
  }

  /** The sequence field of a generated id parses to 1 + the previous maximum. */
  lemma NextSequenceNumber(prefix: string, ids: seq<string>)
    ensures SequenceNumber(prefix, NextSequencedId(prefix, ids)) == Some(MaxOrZero(SequenceNumbers(prefix, ids)) + 1)
  {
    NextSequenceNumberIs(prefix, ids, MaxOrZero(SequenceNumbers(prefix, ids)) + 1);
  }

  lemma NextSequenceNumberIs(prefix: string, ids: seq<string>, n: nat)
    requires n == MaxOrZero(SequenceNumbers(prefix, ids)) + 1
    ensures SequenceNumber(prefix, NextSequencedId(prefix, ids)) == Some(n)
  {
    PrefixedFieldReadsBack(prefix, n);
  }

  lemma PrefixedFieldReadsBack(prefix: string, n: nat)
    ensures SequenceNumber(prefix, PrefixedNumber(prefix, n)) == Some(n)
  {
    var field := PadZeros(DecimalString(n), 4);
    SplitAtPrefix(prefix, field);
    FieldReadsBack(n);
  }

  lemma SplitAtPrefix(prefix: string, field: string)
    ensures |prefix| <= |prefix + field|
    ensures (prefix + field)[..|prefix|] == prefix && (prefix + field)[|prefix|..] == field
  {
  }

  /** A zero-padded decimal number parses back to that number. */
  lemma FieldReadsBack(n: nat)
    ensures var field := PadZeros(DecimalString(n), 4);
            UpToDash(field) == field && ParseIntField(field) == Some(n)
  {
    PadZerosValue(DecimalString(n), 4);
    DecimalRoundTrip(n);
    ParseDigitField(PadZeros(DecimalString(n), 4));
  }

  /** The generated id can never equal an existing one with the same prefix,
      so no two orders get the same id this way. */
  lemma NextSequencedIdFresh(prefix: string, ids: seq<string>)
    ensures NextSequencedId(prefix, ids) !in ids
  {
    var n := MaxOrZero(SequenceNumbers(prefix, ids)) + 1;
    NextSequenceNumberIs(prefix, ids, n);
    AboveAllIsFresh(prefix, ids, NextSequencedId(prefix, ids), n);
  }

  /** An id whose field reads back as a number above every number in use is new. */
  lemma AboveAllIsFresh(prefix: string, ids: seq<string>, r: string, n: nat)
    requires SequenceNumber(prefix, r) == Some(n)
    requires forall k :: 0 <= k < |SequenceNumbers(prefix, ids)| ==> SequenceNumbers(prefix, ids)[k] < n
    ensures r !in ids
  {
    forall i | 0 <= i < |ids|
      ensures ids[i] != r
    {
      if SequenceNumber(prefix, ids[i]).Some? {
        SequenceNumbersHas(prefix, ids, i);
      }
    }
  }

  lemma NextWorkOrderIdFresh(year: nat, ids: seq<string>)
    ensures NextWorkOrderId(year, ids) !in ids
  {
    NextSequencedIdFresh(OrderIdPrefix(year), ids);
  }

  /** The next id is `MA-YY-` followed by the sequence 1 + the largest one already used. */
  lemma NextWorkOrderIdSequence(year: nat, ids: seq<string>)
    ensures var r := NextWorkOrderId(year, ids);
            var p := OrderIdPrefix(year);
            |p| <= |r| && r[..|p|] == p &&
            SequenceNumber(p, r) == Some(MaxOrZero(SequenceNumbers(p, ids)) + 1)
  {
    NextSequenceNumber(OrderIdPrefix(year), ids);
  }

  /** The generated id passes the save-time format check exactly when the
      year has at least two digits and the sequence still fits in four digits. */
  lemma NextWorkOrderIdValid(year: nat, ids: seq<string>)
    ensures IsValidOrderId(NextWorkOrderId(year, ids)) <==>
            year >= 10 && MaxOrZero(SequenceNumbers(OrderIdPrefix(year), ids)) < 9999
  {
    var suffix := YearSuffix(year);
    var n: nat := MaxOrZero(SequenceNumbers(OrderIdPrefix(year), ids)) + 1;
    var field := PadZeros(DecimalString(n), 4);
    assert NextWorkOrderId(year, ids) == "MA-" + suffix + "-" + field;
    YearSuffixShape(year);
    PaddedLength(n);
    PadZerosValue(DecimalString(n), 4);
    OrderIdShape(suffix, field);
  }

  lemma YearSuffixShape(year: nat)
    ensures 1 <= |YearSuffix(year)| <= 2 && AllDigits(YearSuffix(year))
    ensures |YearSuffix(year)| == 2 <==> year >= 10
  {
    DecimalLength(year, 1);
    assert Pow10(1) == 10;
  }

  lemma PaddedLength(n: nat)
    ensures |PadZeros(DecimalString(n), 4)| >= 4
    ensures |PadZeros(DecimalString(n), 4)| == 4 <==> n < 10000
  {
    DecimalLength(n, 4);
    assert Pow10(4) == 10000 by {
      assert Pow10(2) == 100;
    }
  }

  lemma OrderIdShape(suffix: string, field: string)
    requires 1 <= |suffix| <= 2 && AllDigits(suffix)
    requires |field| >= 4 && AllDigits(field)
    ensures IsValidOrderId("MA-" + suffix + "-" + field) <==> |suffix| == 2 && |field| == 4
  {
    var r := "MA-" + suffix + "-" + field;
    if |suffix| == 2 {
      assert r[..3] == "MA-" && r[3..5] == suffix && r[5] == '-' && r[6..] == field;
    } else {
      assert r[4] == '-';
      assert r[3..5][1] == r[4];
    }
  }

  /** Example: in 2025, with MA-25-0001 and MA-25-0007 in use, the next id is MA-25-0008. */
  lemma NextWorkOrderIdExample()
    ensures NextWorkOrderId(2025, ["MA-25-0001", "MA-25-0007"]) == "MA-25-0008"
  {
    var ids := ["MA-25-0001", "MA-25-0007"];
    ExamplePrefix();
    ExampleNumbers(ids);
    ExampleField();
    assert NextWorkOrderId(2025, ids) == "MA-25-" + "0008";
  }

  lemma ExampleField()
    ensures PadZeros(DecimalString(MaxOrZero([1, 7]) + 1), 4) == "0008"
  {
    assert MaxOrZero([1, 7]) == 7;
    assert DecimalString(8) == "8";
  }

  lemma ExamplePrefix()
    ensures OrderIdPrefix(2025) == "MA-25-"
  {
    assert DecimalString(20) == "20";
    assert DecimalString(202) == "202";
    assert DecimalString(2025) == "2025";
  }

  lemma ExampleNumbers(ids: seq<string>)
    requires ids == ["MA-25-0001", "MA-25-0007"]
    ensures SequenceNumbers("MA-25-", ids) == [1, 7]
  {
    var p := "MA-25-";
    ExampleIdNumber(ids[0], "0001", 1);
    ExampleIdNumber(ids[1], "0007", 7);
    SequenceNumbersCons(p, ids[1], [], 7);
    SequenceNumbersCons(p, ids[0], [ids[1]], 1);
    assert ids == [ids[0]] + [ids[1]];
  }

  lemma ExampleIdNumber(id: string, field: string, n: nat)
    requires (id, field, n) in {("MA-25-0001", "0001", 1), ("MA-25-0007", "0007", 7)}
    ensures SequenceNumber("MA-25-", id) == Some(n)
  {
    ExampleDigits();
    ExampleSequence("MA-25-", id, field, n);
  }

  lemma ExampleDigits()
    ensures AllDigits("0001") && DigitsValue("0001") == 1
    ensures AllDigits("0007") && DigitsValue("0007") == 7
  {
    assert DigitsValue("0") == 0 && DigitsValue("00") == 0 && DigitsValue("000") == 0;
    assert "0001"[..3] == "000" && "0007"[..3] == "000";
  }

  /** An id with the prefix whose field parses puts its number first. */
  lemma SequenceNumbersCons(prefix: string, id: string, rest: seq<string>, n: nat)
    requires SequenceNumber(prefix, id) == Some(n)
    ensures SequenceNumbers(prefix, [id] + rest) == [n] + SequenceNumbers(prefix, rest)
  {
    assert ([id] + rest)[0] == id && ([id] + rest)[1..] == rest;
  }

  lemma ExampleSequence(p: string, id: string, field: string, n: nat)
    requires id == p + field && |field| >= 1 && AllDigits(field) && DigitsValue(field) == n
    ensures SequenceNumber(p, id) == Some(n)
  {
    SplitAtPrefix(p, field);
    ParseDigitField(field);
  }

  // ---- Request ids ----

  /** The id handleSolicitudSubmit gives a new request when `count` requests
      are stored: `SOL-` and count + 1, zero-padded to four digits. */
  function RequestIdForCount(count: nat): (id: string)
    ensures |id| >= 8 && id[..4] == "SOL-" && AllDigits(id[4..])
  {
    var field := PadZeros(DecimalString(count + 1), 4);
    PadZerosValue(DecimalString(count + 1), 4);
    "SOL-" + field
  }

  /** The ids present when requests have only ever been added, one at a
      time, each with the id of the count before it. */
  predicate SequentialRequestIds(ids: seq<string>) {
    forall i :: 0 <= i < |ids| ==> ids[i] == RequestIdForCount(i)
  }

  /** Different counts give different ids: the digits read back as count + 1. */
  lemma RequestIdInjective(m: nat, n: nat)
    ensures RequestIdForCount(m) == RequestIdForCount(n) <==> m == n
  {
    if RequestIdForCount(m) == RequestIdForCount(n) {
      var fm, fn := PadZeros(DecimalString(m + 1), 4), PadZeros(DecimalString(n + 1), 4);
      assert RequestIdForCount(m)[4..] == fm;
      assert RequestIdForCount(n)[4..] == fn;
      PadZerosValue(DecimalString(m + 1), 4);
      PadZerosValue(DecimalString(n + 1), 4);
      DecimalRoundTrip(m + 1);
      DecimalRoundTrip(n + 1);
    }
  }

  /** While requests are only added, the count-based id is new. */
  lemma RequestIdFresh(ids: seq<string>)
    requires SequentialRequestIds(ids)
    ensures RequestIdForCount(|ids|) !in ids
    ensures SequentialRequestIds(ids + [RequestIdForCount(|ids|)])
  {
    forall i | 0 <= i < |ids|
      ensures ids[i] != RequestIdForCount(|ids|)
    {
      RequestIdInjective(i, |ids|);
    }
  }

  /** The first request is SOL-0001 and the forty-second is SOL-0042. */
  lemma RequestIdExamples()
    ensures RequestIdForCount(0) == "SOL-0001"
    ensures RequestIdForCount(41) == "SOL-0042"
  {
    assert DecimalString(1) == "1";
    assert DecimalString(42) == DecimalString(4) + "2";
    assert DecimalString(42) == "42";
  }
}
