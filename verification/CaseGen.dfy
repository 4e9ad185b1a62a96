/** Whole dollar amounts: printing them with comma groups, and reading them out of text. */
module CaseGen {
  import opened Text

  /** The digits in groups of three from the right. */
  function Groups(digits: string): seq<string>
    decreases |digits|
  {
    if |digits| <= 3 then [digits] else Groups(digits[..|digits| - 3]) + [digits[|digits| - 3..]]
  }

  function WholeDollars(value: int): string {
    if value <= 0 then "$0" else "$" + Join(Groups(Decimal(value)), ",")
  }

  method FormatWholeDollarAmount(value: int) returns (amount: string)
    ensures amount == WholeDollars(value)
  {
    if value <= 0 {
      return "$0";
    }
    var raw := Decimal(value);
    var chunks: seq<string> := [];
    while |raw| > 3
      invariant Groups(raw) + chunks == Groups(Decimal(value))
    {
      Assoc(Groups(raw[..|raw| - 3]), [raw[|raw| - 3..]], chunks);
      chunks := [raw[|raw| - 3..]] + chunks;
      raw := raw[..|raw| - 3];
    }
    chunks := [raw] + chunks;
    amount := "$" + Join(chunks, ",");
  }

  // ----- reading -----

  /** Where the first digit is, or the length of the text. */
  function FirstDigit(s: string): (i: nat)
    ensures i <= |s| && (i < |s| ==> IsDigit(s[i]))
  {
    if s == "" || IsDigit(s[0]) then 0 else 1 + FirstDigit(s[1..])
  }

  /** The length of the longest prefix of digits and commas. */
  function AmountRun(s: string): (n: nat)
    ensures n <= |s| && forall i :: 0 <= i < n ==> IsDigit(s[i]) || s[i] == ','
  {
    if s != "" && (IsDigit(s[0]) || s[0] == ',') then 1 + AmountRun(s[1..]) else 0
  }

  function WithoutCommas(s: string): string {
    if s == "" then "" else (if s[0] == ',' then "" else [s[0]]) + WithoutCommas(s[1..])
  }

  /**
   * parseAmountString: the first match of a digit and further digits and commas, without the commas.  The
   * pattern also takes a fraction, which the split at the point drops again.
   */
  function ParseAmount(raw: string): Option<int> {
    var i := FirstDigit(raw);
    if i == |raw| then None else ParseInt64(WithoutCommas(raw[i..][..AmountRun(raw[i..])]))
  }

  // ----- what printing and reading promise each other -----

  lemma {:induction false} GroupsShape(digits: string)
    requires digits != ""
    ensures 1 <= |Groups(digits)[0]| <= 3
    ensures forall k :: 0 < k < |Groups(digits)| ==> |Groups(digits)[k]| == 3
    ensures Concat(Groups(digits)) == digits
    decreases |digits|
  {
    if |digits| > 3 {
      var front, last := digits[..|digits| - 3], digits[|digits| - 3..];
      GroupsShape(front);
      ConcatAppend(Groups(front), [last]);
      assert Concat([last]) == last + Concat([]) == last;
      assert digits == front + last;
    } else {
      assert Concat([digits]) == digits + Concat([]) == digits;
    }
  }

  lemma {:induction false} WithoutCommasAppend(a: string, b: string)
    ensures WithoutCommas(a + b) == WithoutCommas(a) + WithoutCommas(b)
  {
    if a == "" {
      assert a + b == b;
    } else {
      assert (a + b)[0] == a[0] && (a + b)[1..] == a[1..] + b;
      WithoutCommasAppend(a[1..], b);
    }
  }

  lemma {:induction false} NoCommas(s: string)
    requires AllDigits(s)
    ensures WithoutCommas(s) == s
  {
    if s != "" {
      assert IsDigit(s[0]) && forall i :: 0 <= i < |s[1..]| ==> IsDigit(s[1..][i]) by {
        assert forall i :: 0 <= i < |s[1..]| ==> s[1..][i] == s[i + 1];
      }
      NoCommas(s[1..]);
    }
  }

  predicate AmountChars(s: string) {
    forall i :: 0 <= i < |s| ==> IsDigit(s[i]) || s[i] == ','
  }

  lemma JoinMore(parts: seq<string>, last: string)
    requires parts != []
    ensures Join(parts + [last], ",") == Join(parts, ",") + "," + last
  {
    assert (parts + [last])[..|parts|] == parts;
  }

  /** A text of digits and commas that holds these digits. */
  predicate Shows(s: string, digits: string) {
    s != "" && IsDigit(s[0]) && AmountChars(s) && WithoutCommas(s) == digits
  }

  lemma ShowsMore(s: string, front: string, last: string)
    requires Shows(s, front) && AllDigits(last)
    ensures Shows(s + "," + last, front + last)
  {
    NoCommas(last);
    WithoutCommasAppend(s + ",", last);
    WithoutCommasAppend(s, ",");
    assert WithoutCommas(",") == "";
  }

  /** The printed groups are digits and commas, start with a digit, and are the digits once the commas go. */
  lemma {:induction false} JoinedGroups(digits: string)
    requires digits != "" && AllDigits(digits)
    ensures Shows(Join(Groups(digits), ","), digits)
    decreases |digits|
  {
    if |digits| > 3 {
      var front, last := digits[..|digits| - 3], digits[|digits| - 3..];
      assert digits == front + last;
      JoinedGroups(front);
      JoinMore(Groups(front), last);
      ShowsMore(Join(Groups(front), ","), front, last);
    } else {
      NoCommas(digits);
    }
  }

  lemma {:induction false} SkipToDigit(before: string, s: string)
    requires forall i :: 0 <= i < |before| ==> !IsDigit(before[i])
    requires s != "" && IsDigit(s[0])
    ensures FirstDigit(before + s) == |before|
  {
    if before == "" {
      assert before + s == s;
    } else {
      assert (before + s)[0] == before[0] && (before + s)[1..] == before[1..] + s;
      SkipToDigit(before[1..], s);
    }
  }

  lemma {:induction false} RunGoesOn(s: string, after: string)
    requires AmountChars(s)
    ensures AmountRun(s + after) == |s| + AmountRun(after)
  {
    if s == "" {
      assert s + after == after;
    } else {
      assert (s + after)[0] == s[0] && (s + after)[1..] == s[1..] + after;
      assert forall i :: 0 <= i < |s[1..]| ==> s[1..][i] == s[i + 1];
      RunGoesOn(s[1..], after);
    }
  }

  /** The further digits that are taken for a part of the amount in front of a text. */
  function MoreDigits(after: string): string {
    WithoutCommas(after[..AmountRun(after)])
  }

  /** Behind commas, if any, comes a digit. */
  predicate GoesOn(after: string) {
    after != "" && (IsDigit(after[0]) || (after[0] == ',' && GoesOn(after[1..])))
  }

  lemma {:induction false} MoreDigitsIff(after: string)
    ensures AllDigits(MoreDigits(after)) && (MoreDigits(after) != "" <==> GoesOn(after))
  {
    if AmountRun(after) > 0 {
      MoreDigitsIff(after[1..]);
      assert after[..AmountRun(after)][1..] == after[1..][..AmountRun(after[1..])];
    }
  }

  lemma ReadShown(before: string, s: string, after: string, digits: string)
    requires forall i :: 0 <= i < |before| ==> !IsDigit(before[i])
    requires Shows(s, digits)
    ensures ParseAmount(before + (s + after)) == ParseInt64(digits + MoreDigits(after))
  {
    SkipToDigit(before, s + after);
    assert (before + (s + after))[|before|..] == s + after;
    TakenDigits(s, after);
  }

  lemma TakenDigits(s: string, after: string)
    requires AmountChars(s)
    ensures WithoutCommas((s + after)[..AmountRun(s + after)]) == WithoutCommas(s) + MoreDigits(after)
  {
    var m := AmountRun(after);
    RunGoesOn(s, after);
    assert (s + after)[..|s| + m] == s + after[..m];
    WithoutCommasAppend(s, after[..m]);
  }

  lemma ShownDollars(value: int)
    ensures
      var n: nat := if value <= 0 then 0 else value;
      WholeDollars(value) == "$" + Join(Groups(Decimal(n)), ",")
  {
    if value <= 0 {
      assert Decimal(0) == "0" && Groups("0") == ["0"] && Join(["0"], ",") == "0";
    }
  }

  predicate AllZeros(s: string) {
    forall i :: 0 <= i < |s| ==> s[i] == '0'
  }

  /** Further digits make a number greater, unless there is nothing but zeros. */
  lemma {:induction false} ValueGrows(a: string, b: string)
    requires AllDigits(a) && AllDigits(b)
    ensures AllDigits(a + b) && Value(a + b) >= Value(a)
    ensures Value(a) > 0 && b != "" ==> Value(a + b) > Value(a)
    ensures Value(a) == 0 ==> (Value(a + b) == 0 <==> AllZeros(b))
    decreases |b|
  {
    if b == "" {
      assert a + b == a;
    } else {
      var front, last := b[..|b| - 1], b[|b| - 1];
      ValueGrows(a, front);
      assert (a + b)[..|a + b| - 1] == a + front;
      assert AllZeros(b) <==> AllZeros(front) && last == '0';
    }
  }

  /** What a whole dollar amount reads as, when it is on its own: amounts below zero print as zero. */
  function OnItsOwn(value: int): Option<int> {
    if value <= 0 then Some(0) else if value <= MAX_INT64 then Some(value) else None
  }

  lemma MoreDigitsHarm(n: nat, more: string)
    requires AllDigits(more)
    ensures
      ParseInt64(Decimal(n) + more) == OnItsOwn(n)
      <==> more == "" || n > MAX_INT64 || (n == 0 && AllZeros(more))
  {
    var s := Decimal(n) + more;
    ValueOfDecimal(n);
    ValueGrows(Decimal(n), more);
    ParseDigits(s);
    if more == "" {
      assert s == Decimal(n);
    }
  }

  lemma ParseDigits(s: string)
    requires s != "" && AllDigits(s)
    ensures ParseInt64(s) == if Value(s) <= MAX_INT64 then Some(Value(s)) else None
  {
    assert IsDigit(s[0]);
  }

  /**
   * Out of any text without a digit in front of it, a printed amount is read back as what it is on its own if
   * and only if the text behind it does not go on with a digit, be it behind commas; except that zeros behind
   * "$0" and any digits behind an amount beyond 64 bits do no harm.  A fraction may follow.
   */
  lemma ReadBack(before: string, value: int, after: string)
    requires forall i :: 0 <= i < |before| ==> !IsDigit(before[i])
    ensures
      ParseAmount(before + WholeDollars(value) + after) == OnItsOwn(value)
      <==> !GoesOn(after) || value > MAX_INT64 || (value <= 0 && AllZeros(MoreDigits(after)))
  {
    var n: nat := if value <= 0 then 0 else value;
    ShownDollars(value);
    MoreDigitsIff(after);
    ReadDecimal(before, n, after);
    MoreDigitsHarm(n, MoreDigits(after));
  }

  lemma ReadDecimal(before: string, n: nat, after: string)
    requires forall i :: 0 <= i < |before| ==> !IsDigit(before[i])
    ensures
      ParseAmount(before + ("$" + Join(Groups(Decimal(n)), ",")) + after)
      == ParseInt64(Decimal(n) + MoreDigits(after))
  {
    JoinedGroups(Decimal(n));
    ReadSum(before, Join(Groups(Decimal(n)), ","), after, Decimal(n));
  }

  lemma ReadSum(before: string, s: string, after: string, digits: string)
    requires forall i :: 0 <= i < |before| ==> !IsDigit(before[i])
    requires Shows(s, digits)
    ensures ParseAmount(before + ("$" + s) + after) == ParseInt64(digits + MoreDigits(after))
  {
    assert before + ("$" + s) + after == (before + "$") + (s + after);
    ReadShown(before + "$", s, after, digits);
  }

  /** The round trip, and the comma groups. */
  lemma FormatParses(value: int)
    requires value <= MAX_INT64
    ensures ParseAmount(WholeDollars(value)) == Some(if value <= 0 then 0 else value)
    ensures value > 0 ==>
      exists groups: seq<string> ::
        && WholeDollars(value) == "$" + Join(groups, ",") && Concat(groups) == Decimal(value)
        && groups != [] && 1 <= |groups[0]| <= 3 && forall k :: 0 < k < |groups| ==> |groups[k]| == 3
  {
    ReadBack("", value, "");
    Bare(WholeDollars(value));
    if value > 0 {
      GroupsShape(Decimal(value));
      var groups := Groups(Decimal(value));
      assert WholeDollars(value) == "$" + Join(groups, ",");
    }
  }

  lemma Bare(s: string)
    ensures "" + s + "" == s
  {
  }
}
