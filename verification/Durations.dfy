// The text of a `timeout:`: a number with `ms`, `s` or `m`, or a bare number of
// seconds, blanks around either part ignored. Durations are in milliseconds.
module Durations {
  import opened Common

  // Unicode White_Space, which `str::trim` removes.
  predicate IsWhitespace(c: char) {
    var n := c as int;
    0x9 <= n <= 0xD || n == 0x20 || n == 0x85 || n == 0xA0 || n == 0x1680 || 0x2000 <= n <= 0x200A
    || n == 0x2028 || n == 0x2029 || n == 0x202F || n == 0x205F || n == 0x3000
  }

  const WHITE_SPACE := {9, 10, 11, 12, 13, 32, 133, 160, 5760, 8192, 8193, 8194, 8195, 8196, 8197, 8198, 8199, 8200,
    8201, 8202, 8232, 8233, 8239, 8287, 12288}

  // The characters in question, one by one.
  lemma WhitespaceExactly(c: char)
    ensures IsWhitespace(c) <==> c as int in WHITE_SPACE
  {
  }

  function TrimStart(s: string): string {
    if s == "" || !IsWhitespace(s[0]) then s else TrimStart(s[1..])
  }

  function TrimEnd(s: string): string {
    if s == "" || !IsWhitespace(s[|s| - 1]) then s else TrimEnd(s[..|s| - 1])
  }

  function Trim(s: string): string {
    TrimEnd(TrimStart(s))
  }

  predicate IsDigit(c: char) {
    '0' <= c <= '9'
  }

  predicate AllDigits(s: string) {
    s != "" && forall c <- s :: IsDigit(c)
  }

  function DigitValue(c: char): nat
    requires IsDigit(c)
  {
    c as nat - '0' as nat
  }

  function Value(digits: string): nat
    requires forall c <- digits :: IsDigit(c)
  {
    if digits == "" then 0
    else
      var n := |digits| - 1;
      assert digits[n] in digits;
      10 * Value(digits[..n]) + DigitValue(digits[n])
  }

  function Digits(number: string): string {
    if number != "" && number[0] == '+' then number[1..] else number
  }

  // `str::parse::<u64>`: an optional plus sign, digits, and no overflow.
  function ParseU64(s: string): Option<nat> {
    var digits := Digits(s);
    if AllDigits(digits) && Value(digits) <= U64_MAX then Some(Value(digits)) else None
  }

  function StripSuffix(s: string, suffix: string): Option<string> {
    if |s| >= |suffix| && s[|s| - |suffix|..] == suffix then Some(s[..|s| - |suffix|]) else None
  }

  datatype DurationUnit = Bare | Millis | Seconds | Minutes

  function Suffix(u: DurationUnit): string {
    match u case Bare => "" case Millis => "ms" case Seconds => "s" case Minutes => "m"
  }

  // Minutes are turned into seconds in 64 bits, where a release build wraps around.
  function Milliseconds(n: nat, u: DurationUnit): nat {
    match u
    case Millis => n
    case Minutes => n * 60 % (U64_MAX + 1) * 1000
    case _ => n * 1000
  }

  function Timed(n: Option<nat>, u: DurationUnit): Option<nat> {
    if n.Some? then Some(Milliseconds(n.value, u)) else None
  }

  function ParseDuration(text: string): Option<nat> {
    var s := Trim(text);
    if StripSuffix(s, "ms").Some? then Timed(ParseU64(Trim(StripSuffix(s, "ms").value)), Millis)
    else if StripSuffix(s, "m").Some? then Timed(ParseU64(Trim(StripSuffix(s, "m").value)), Minutes)
    else if StripSuffix(s, "s").Some? then Timed(ParseU64(Trim(StripSuffix(s, "s").value)), Seconds)
    else Timed(ParseU64(s), Bare)
  }

  // ---- reading back what is written --------------------------------------------

  function Digit(n: nat): char
    requires n < 10
  {
    ('0' as nat + n) as char
  }

  function Shown(n: nat): string {
    if n < 10 then [Digit(n)] else Shown(n / 10) + [Digit(n % 10)]
  }

  lemma {:induction false} ShownReads(n: nat)
    ensures AllDigits(Shown(n)) && Value(Shown(n)) == n
  {
    if n < 10 {
      assert Shown(n)[..0] == "";
    } else {
      ShownReads(n / 10);
      assert Shown(n)[..|Shown(n)| - 1] == Shown(n / 10);
    }
  }

  predicate NoBlankEnds(s: string) {
    s != "" && !IsWhitespace(s[0]) && !IsWhitespace(s[|s| - 1])
  }

  predicate Blank(s: string) {
    forall c <- s :: IsWhitespace(c)
  }

  lemma {:induction false} TrimsStart(before: string, s: string)
    requires Blank(before) && s != "" && !IsWhitespace(s[0])
    ensures TrimStart(before + s) == s
  {
    if before == "" {
      assert before + s == s;
    } else {
      assert before[0] in before;
      assert (before + s)[1..] == before[1..] + s;
      TrimsStart(before[1..], s);
    }
  }

  lemma {:induction false} TrimsEnd(s: string, after: string)
    requires Blank(after) && s != "" && !IsWhitespace(s[|s| - 1])
    ensures TrimEnd(s + after) == s
  {
    if after == "" {
      assert s + after == s;
    } else {
      var n := |after| - 1;
      assert after[n] in after;
      assert (s + after)[..|s + after| - 1] == s + after[..n];
      TrimsEnd(s, after[..n]);
    }
  }

  lemma Trims(before: string, s: string, after: string)
    requires Blank(before) && Blank(after) && NoBlankEnds(s)
    ensures Trim(before + s + after) == s
  {
    assert before + s + after == before + (s + after);
    TrimsStart(before, s + after);
    TrimsEnd(s, after);
  }

  // ---- which texts are durations, and which ------------------------------------

  // An optional plus sign and digits whose value fits 64 bits.
  predicate Number(number: string) {
    AllDigits(Digits(number)) && Value(Digits(number)) <= U64_MAX
  }

  lemma NumberEnds(number: string)
    requires Number(number)
    ensures NoBlankEnds(number) && IsDigit(number[|number| - 1])
  {
    var digits := Digits(number);
    assert digits[0] in digits && digits[|digits| - 1] in digits;
    assert number[|number| - 1] == digits[|digits| - 1];
  }

  // Blanks, perhaps a plus sign, digits whose value fits 64 bits, blanks and a unit,
  // and blanks again.
  predicate Written(text: string, before: string, plus: string, digits: string, between: string, u: DurationUnit, after: string) {
    && text == before + ((plus + digits) + between + Suffix(u)) + after
    && (plus == "" || plus == "+") && AllDigits(digits) && Value(digits) <= U64_MAX
    && Blank(before) && Blank(between) && Blank(after) && (u.Bare? ==> between == "")
  }

  lemma NumberIs(plus: string, digits: string)
    requires plus == "" || plus == "+"
    requires AllDigits(digits) && Value(digits) <= U64_MAX
    ensures Number(plus + digits) && Digits(plus + digits) == digits
  {
    assert digits[0] in digits;
    if plus == "" { assert plus + digits == digits; } else { assert (plus + digits)[1..] == digits; }
  }

  lemma WrittenReads(text: string, before: string, plus: string, digits: string, between: string, u: DurationUnit, after: string)
    requires Written(text, before, plus, digits, between, u, after)
    ensures ParseDuration(text) == Some(Milliseconds(Value(digits), u))
  {
    hide Value, Trim, Blank, AllDigits, Digits, ParseDuration, Number;
    var number := plus + digits;
    NumberIs(plus, digits);
    TextEnds(number, between, u);
    Trims(before, number + between + Suffix(u), after);
    ReadsUnit(text, number, between, u);
  }

  lemma TextEnds(number: string, between: string, u: DurationUnit)
    requires Number(number) && Blank(between) && (u.Bare? ==> between == "")
    ensures NoBlankEnds(number + between + Suffix(u))
  {
    NumberEnds(number);
    var s := number + between + Suffix(u);
    assert s[0] == number[0];
    assert s[|s| - 1] == if u.Bare? then number[|number| - 1] else Suffix(u)[|Suffix(u)| - 1];
  }

  lemma ReadsUnit(text: string, number: string, between: string, u: DurationUnit)
    requires Number(number) && Blank(between) && (u.Bare? ==> between == "")
    requires Trim(text) == number + between + Suffix(u)
    ensures ParseDuration(text) == Some(Milliseconds(Value(Digits(number)), u))
  {
    UnitSplits(number, between, u);
    TrimsNumber(number, between);
    assert ParseU64(number) == Some(Value(Digits(number)));
    assert u.Bare? ==> number + between + Suffix(u) == number;
    hide Trim, Value, Blank, AllDigits, Digits, ParseU64, StripSuffix, Milliseconds;
  }

  lemma TrimsNumber(number: string, between: string)
    requires Number(number) && Blank(between)
    ensures Trim(number + between) == number
  {
    NumberEnds(number);
    Trims("", number, between);
    assert "" + number + between == number + between;
  }

  lemma UnitSplits(number: string, between: string, u: DurationUnit)
    requires Number(number) && Blank(between) && (u.Bare? ==> between == "")
    ensures var s := number + between + Suffix(u);
      && StripSuffix(s, "ms") == (if u.Millis? then Some(number + between) else None)
      && (StripSuffix(s, "m") == if u.Minutes? then Some(number + between) else None)
      && (!u.Millis? ==> StripSuffix(s, "s") == if u.Seconds? then Some(number + between) else None)
  {
    var core := number + between;
    CoreEnds(number, between);
    hide Blank, Number, StripSuffix;
    match u {
      case Bare =>
        assert core + "" == core;
        LastDiffers(core, "ms");
        LastDiffers(core, "m");
        LastDiffers(core, "s");
      case Millis =>
        Suffixed(core, "ms");
        LastDiffers(core + "ms", "m");
      case Seconds =>
        NotMillis(core);
        Suffixed(core, "s");
        LastDiffers(core + "s", "m");
      case Minutes =>
        Suffixed(core, "m");
        LastDiffers(core + "m", "ms");
        LastDiffers(core + "m", "s");
    }
  }

  lemma CoreEnds(number: string, between: string)
    requires Number(number) && Blank(between)
    ensures var core := number + between; core != "" && core[|core| - 1] != 'm' && core[|core| - 1] != 's'
  {
    var core := number + between;
    NumberEnds(number);
    if between != "" { assert between[|between| - 1] in between; }
    assert core[|core| - 1] == if between == "" then number[|number| - 1] else between[|between| - 1];
  }

  lemma Suffixed(core: string, suffix: string)
    ensures StripSuffix(core + suffix, suffix) == Some(core)
  {
    assert (core + suffix)[|core|..] == suffix && (core + suffix)[..|core|] == core;
  }

  lemma LastDiffers(s: string, suffix: string)
    requires s != "" && suffix != "" && s[|s| - 1] != suffix[|suffix| - 1]
    ensures StripSuffix(s, suffix) == None
  {
    if |s| >= |suffix| { assert s[|s| - |suffix|..][|suffix| - 1] == s[|s| - 1]; }
  }

  lemma NotMillis(core: string)
    requires core != "" && core[|core| - 1] != 'm'
    ensures StripSuffix(core + "s", "ms") == None
  {
    var s := core + "s";
    assert s[|s| - 2..][0] == core[|core| - 1] && "ms"[0] == 'm';
  }

  lemma {:induction false} TrimStartSplits(s: string) returns (before: string)
    ensures Blank(before) && s == before + TrimStart(s)
    ensures TrimStart(s) != "" ==> !IsWhitespace(TrimStart(s)[0])
  {
    before := "";
    if s != "" && IsWhitespace(s[0]) {
      var rest := TrimStartSplits(s[1..]);
      before := [s[0]] + rest;
    }
  }

  lemma {:induction false} TrimEndSplits(s: string) returns (after: string)
    ensures Blank(after) && s == TrimEnd(s) + after
    ensures TrimEnd(s) != "" ==> !IsWhitespace(TrimEnd(s)[|TrimEnd(s)| - 1])
  {
    after := "";
    if s != "" && IsWhitespace(s[|s| - 1]) {
      var rest := TrimEndSplits(s[..|s| - 1]);
      after := rest + [s[|s| - 1]];
    }
  }

  lemma TrimSplits(s: string) returns (before: string, after: string)
    ensures Blank(before) && Blank(after) && s == before + Trim(s) + after
    ensures Trim(s) != "" ==> !IsWhitespace(Trim(s)[0])
  {
    hide TrimStart, TrimEnd, Blank, IsWhitespace;
    before := TrimStartSplits(s);
    after := TrimEndSplits(TrimStart(s));
    assert Trim(s) + after == TrimStart(s);
    assert before + (Trim(s) + after) == before + Trim(s) + after;
    if Trim(s) != "" { assert Trim(s)[0] == TrimStart(s)[0]; }
  }

  // The unit that is split off a trimmed text.
  function UnitOf(s: string): DurationUnit {
    if StripSuffix(s, "ms").Some? then Millis
    else if StripSuffix(s, "m").Some? then Minutes
    else if StripSuffix(s, "s").Some? then Seconds
    else Bare
  }

  lemma NumberSplits(number: string)
    ensures number == (if Digits(number) == number then "" else "+") + Digits(number)
  {
    if number != "" && number[0] == '+' { assert number == "+" + number[1..]; }
  }

  lemma ReadIsWritten(text: string) returns (before: string, plus: string, digits: string, between: string, u: DurationUnit, after: string)
    requires ParseDuration(text).Some?
    ensures Written(text, before, plus, digits, between, u, after)
  {
    var s := Trim(text);
    u := UnitOf(s);
    before, after := TrimSplits(text);
    hide Trim, TrimStart, TrimEnd, Blank, IsWhitespace, Value, AllDigits, Digits;
    var number;
    if u.Bare? {
      number, between := s, "";
      assert Blank(between) by { EmptyIsBlank(); }
      assert number + between + Suffix(u) == s;
    } else {
      var core := StripSuffix(s, Suffix(u)).value;
      assert s == core + Suffix(u);
      number := Trim(core);
      var none;
      none, between := TrimSplits(core);
      assert none + number + between == none + (number + between);
      assert core != "" ==> core[0] == s[0];
      BlankHead(none);
      assert core == number + between;
    }
    digits := Digits(number);
    plus := if digits == number then "" else "+";
    NumberSplits(number);
  }

  lemma EmptyIsBlank()
    ensures Blank("")
  {
  }

  lemma BlankHead(s: string)
    requires Blank(s)
    ensures s != "" ==> IsWhitespace(s[0])
  {
    assert s != "" ==> s[0] in s;
  }

  // A text is a duration exactly when it is written as one; everything else, an
  // empty text or a number beyond 64 bits included, is turned down.
  lemma ParsesExactly(text: string)
    ensures ParseDuration(text).Some? <==>
      exists before, plus, digits, between, u, after :: Written(text, before, plus, digits, between, u, after)
  {
    hide Written, ParseDuration;
    if ParseDuration(text).Some? {
      var before, plus, digits, between, u, after := ReadIsWritten(text);
    }
    if before, plus, digits, between, u, after :| Written(text, before, plus, digits, between, u, after) {
      WrittenReads(text, before, plus, digits, between, u, after);
    }
  }

  function Factor(u: DurationUnit): nat {
    match u case Millis => 1 case Minutes => 60_000 case _ => 1000
  }

  // Every number of 64 bits, in every unit, with blanks at either end and between
  // number and unit, is read, and as that many milliseconds exactly when it is not
  // a number of minutes whose seconds overflow.
  lemma DurationRoundTrip(n: nat, u: DurationUnit, before: string, between: string, after: string)
    requires n <= U64_MAX && Blank(before) && Blank(between) && Blank(after) && (u.Bare? ==> between == "")
    ensures var read := ParseDuration(before + (Shown(n) + between + Suffix(u)) + after);
      && read == Some(Milliseconds(n, u))
      && (read == Some(n * Factor(u)) <==> (u.Minutes? ==> n * 60 <= U64_MAX))
  {
    var text := before + (Shown(n) + between + Suffix(u)) + after;
    hide Shown, Value, ParseDuration, Blank, AllDigits, Milliseconds, Factor, Written;
    ShownReads(n);
    ShownWritten(text, before, Shown(n), between, u, after);
    WrittenReads(text, before, "", Shown(n), between, u, after);
    WrapsExactly(n, u);
  }

  lemma ShownWritten(text: string, before: string, digits: string, between: string, u: DurationUnit, after: string)
    requires text == before + (digits + between + Suffix(u)) + after
    requires AllDigits(digits) && Value(digits) <= U64_MAX && Blank(before) && Blank(between) && Blank(after) && (u.Bare? ==> between == "")
    ensures Written(text, before, "", digits, between, u, after)
  {
    hide Value, Blank, AllDigits, Suffix;
    assert "" + digits == digits;
  }

  lemma WrapsExactly(n: nat, u: DurationUnit)
    ensures Milliseconds(n, u) == n * Factor(u) <==> (u.Minutes? ==> n * 60 <= U64_MAX)
  {
    if u.Minutes? && n * 60 > U64_MAX { assert n * 60 % (U64_MAX + 1) < U64_MAX + 1; }
  }
}
