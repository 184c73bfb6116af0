// The durations of the slash command: a sign and any number of number-unit groups.
module Groups {
  import opened Int64
  import opened Wrappers
  import opened TtlRules
  import opened Labels

  datatype Group = Group(digits: string, unit: char)

  predicate Readable(g: Group) {
    g.digits != "" && AllDigits(g.digits) && g.unit in {'h', 'm', 's'}
  }

  predicate AllReadable(groups: seq<Group>) {
    groups != [] ==> Readable(groups[0]) && AllReadable(groups[1..])
  }

  function Text(groups: seq<Group>): string {
    if groups == [] then "" else groups[0].digits + [groups[0].unit] + Text(groups[1..])
  }

  function Seconds(g: Group): nat
    requires Readable(g)
  {
    DecimalValue(g.digits) * (if g.unit == 'h' then 3600 else if g.unit == 'm' then 60 else 1)
  }

  function Total(groups: seq<Group>): nat
    requires AllReadable(groups)
  {
    if groups == [] then 0 else Seconds(groups[0]) + Total(groups[1..])
  }

  lemma {:induction false} DigitsStopAtUnit(digits: string, unit: char, rest: string)
    requires AllDigits(digits) && !IsDigit(unit)
    ensures LeadingDigits(digits + [unit] + rest) == |digits|
  {
    if digits == "" {
      assert digits + [unit] + rest == [unit] + rest;
    } else {
      DigitsStopAtUnit(digits[1..], unit, rest);
      assert (digits + [unit] + rest)[1..] == digits[1..] + [unit] + rest;
    }
  }

  lemma FirstIsRead(g: Group, rest: string)
    requires Readable(g)
    ensures FirstGroup(g.digits + [g.unit] + rest) == Some(First(Nanoseconds(g.digits, g.unit), rest))
  {
    var s, k := g.digits + [g.unit] + rest, |g.digits|;
    DigitsStopAtUnit(g.digits, g.unit, rest);
    assert s[..k] == g.digits && s[k] == g.unit && s[k + 1..] == rest;
  }

  function Accumulated(groups: seq<Group>, acc: nat): nat
    requires AllReadable(groups)
  {
    if groups == [] then acc else Accumulated(groups[1..], acc + Nanoseconds(groups[0].digits, groups[0].unit))
  }

  lemma {:induction false} AccumulatedTotal(groups: seq<Group>, acc: nat)
    requires AllReadable(groups)
    ensures Accumulated(groups, acc) == acc + Total(groups) * SECOND
  {
    if groups != [] {
      AccumulatedTotal(groups[1..], acc + Nanoseconds(groups[0].digits, groups[0].unit));
    }
  }

  // Reading the text group by group gives these groups.
  ghost predicate ReadAs(s: string, groups: seq<Group>)
    requires AllReadable(groups)
    decreases groups
  {
    if groups == [] then s == ""
    else
      && s != "" && FirstGroup(s).Some?
      && FirstGroup(s).value.nanoseconds == Nanoseconds(groups[0].digits, groups[0].unit)
      && ReadAs(FirstGroup(s).value.rest, groups[1..])
  }

  lemma {:induction false} TextIsReadAs(groups: seq<Group>)
    requires AllReadable(groups)
    ensures ReadAs(Text(groups), groups)
  {
    if groups != [] {
      FirstIsRead(groups[0], Text(groups[1..]));
      TextIsReadAs(groups[1..]);
    }
  }

  lemma {:induction false} GroupsAccumulate(groups: seq<Group>, s: string, acc: nat)
    requires AllReadable(groups) && ReadAs(s, groups)
    ensures SumUnits(s, acc) == Some(Accumulated(groups, acc))
    decreases groups
  {
    if groups != [] {
      var first := FirstGroup(s).value;
      GroupsAccumulate(groups[1..], first.rest, acc + first.nanoseconds);
    }
  }

  lemma TextStartsWithDigit(groups: seq<Group>)
    requires AllReadable(groups) && groups != []
    ensures Text(groups) != "" && IsDigit(Text(groups)[0]) && Text(groups) != "0"
  {
    var g := groups[0];
    assert Readable(g) && g.digits[0] in g.digits && Text(groups)[0] == g.digits[0];
    assert |Text(groups)| >= 2;
  }

  lemma ReadPlain(t: string, total: nat)
    requires t != "" && t != "0" && IsDigit(t[0]) && SumUnits(t, 0) == Some(total)
    ensures ParseDuration(t) == InRange(total)
  {
  }

  lemma ReadSigned(t: string, total: nat, sign: char)
    requires t != "" && t != "0" && SumUnits(t, 0) == Some(total) && sign in {'+', '-'}
    ensures ParseDuration([sign] + t) == InRange(if sign == '-' then -(total as int) else total)
  {
    assert ([sign] + t)[1..] == t;
  }

  // Groups of any number are read as their sum, when it fits in 64 bits; a plus
  // changes nothing, a minus negates.
  lemma GroupsAreSummed(groups: seq<Group>)
    requires AllReadable(groups) && groups != []
    ensures ParseDuration(Text(groups)) == InRange(Total(groups) * SECOND)
    ensures ParseDuration("+" + Text(groups)) == InRange(Total(groups) * SECOND)
    ensures ParseDuration("-" + Text(groups)) == InRange(-SECOND * Total(groups))
  {
    TextIsReadAs(groups);
    GroupsAccumulate(groups, Text(groups), 0);
    AccumulatedTotal(groups, 0);
    TextStartsWithDigit(groups);
    ReadPlain(Text(groups), Total(groups) * SECOND);
    ReadSigned(Text(groups), Total(groups) * SECOND, '+');
    ReadSigned(Text(groups), Total(groups) * SECOND, '-');
  }

  lemma TextOfMore(g: Group, others: seq<Group>)
    requires Readable(g) && AllReadable(others)
    ensures AllReadable([g] + others)
    ensures Text([g] + others) == g.digits + [g.unit] + Text(others)
    ensures Total([g] + others) == Seconds(g) + Total(others)
  {
    assert ([g] + others)[1..] == others;
  }

  lemma FirstIsGroup(s: string) returns (g: Group)
    requires FirstGroup(s).Some?
    ensures Readable(g) && s == g.digits + [g.unit] + FirstGroup(s).value.rest
  {
    var k := LeadingDigits(s);
    g := Group(s[..k], s[k]);
  }

  lemma Peel(s: string, acc: nat) returns (g: Group, rest: string, more: nat)
    requires s != "" && SumUnits(s, acc).Some?
    ensures Readable(g) && s == g.digits + [g.unit] + rest && SumUnits(rest, more).Some?
  {
    var first := FirstGroup(s).value;
    g := FirstIsGroup(s);
    rest, more := first.rest, acc + first.nanoseconds;
  }

  lemma {:induction false} SummedTextsAreGroups(s: string, acc: nat) returns (groups: seq<Group>)
    requires SumUnits(s, acc).Some?
    ensures AllReadable(groups) && Text(groups) == s
    decreases |s|
  {
    groups := [];
    if s != "" {
      var g, rest, more := Peel(s, acc);
      var others := SummedTextsAreGroups(rest, more);
      groups := [g] + others;
      TextOfMore(g, others);
    }
  }

  // Nothing else is read, except a zero.
  lemma ReadTextsAreGroups(text: string) returns (sign: string, groups: seq<Group>)
    requires ParseDuration(text).Some?
    ensures sign in {"", "+", "-"} && AllReadable(groups)
    ensures text == sign + "0" || (groups != [] && text == sign + Text(groups))
  {
    var signed := text != "" && (text[0] == '-' || text[0] == '+');
    sign := if signed then text[..1] else "";
    var s := if signed then text[1..] else text;
    assert signed ==> sign == [text[0]];
    assert text == sign + s;
    groups := [];
    if s != "0" {
      groups := SummedTextsAreGroups(s, 0);
    }
  }

  // A bare zero needs no unit.
  lemma ZeroIsRead()
    ensures ParseDuration("0") == ParseDuration("+0") == ParseDuration("-0") == Some(0)
    ensures ParseDuration("").None? && ParseDuration("+").None? && ParseDuration("-").None?
  {
    assert "+0"[1..] == "0" && "-0"[1..] == "0" && "+"[1..] == "" && "-"[1..] == "";
  }

  // A negative duration never passes validation, whatever follows the sign.
  lemma NegativeIsInvalid(text: string)
    ensures match ParseTTLArg("-" + text) case Some(d) => d <= 0 && !ValidTTL(d) case None => true
  {
    ServerPresetLookup("-" + text);
    assert ("-" + text)[0] == '-' && ("-" + text)[1..] == text;
  }

  lemma {:induction false} LeadingZeros(digits: string)
    requires AllDigits(digits)
    ensures DecimalValue("0" + digits) == DecimalValue(digits)
  {
    if digits == "" {
      assert "0" + digits == "0" && "0"[..0] == "";
    } else {
      var init := digits[..|digits| - 1];
      assert ("0" + digits)[..|digits|] == "0" + init;
      LeadingZeros(init);
    }
  }

  lemma HourAndAHalf()
    ensures ParseTTLArg("1h30m") == Some(5400 * SECOND)
  {
    var hour, minutes := Group("1", 'h'), Group("30", 'm');
    assert "1"[..0] == "" && "30"[..1] == "3" && "3"[..0] == "";
    assert DecimalValue("1") == 1 && DecimalValue("3") == 3 && DecimalValue("30") == 30;
    TextOfMore(minutes, []);
    TextOfMore(hour, [minutes] + []);
    var groups := [hour] + ([minutes] + []);
    assert Text(groups) == "1h30m" && Total(groups) == 5400;
    GroupsAreSummed(groups);
    ServerPresetLookup("1h30m");
  }
}
