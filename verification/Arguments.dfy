/** Decimal printing and the integer parsing of libargs/args.c (try_str_to_int). */
module Integers {

  const INT_MAX := 0x7FFF_FFFF
  const INT_MIN := -0x8000_0000

  type Int32 = x: int | INT_MIN <= x <= INT_MAX

  function DigitChar(d: nat): char
    requires d < 10
  {
    "0123456789"[d]
  }

  /** "%d" for a natural number. */
  function PrintNat(n: nat): (s: string)
    ensures |s| > 0
  {
    if n < 10 then [DigitChar(n)] else PrintNat(n / 10) + [DigitChar(n % 10)]
  }

  function PrintInt(n: int): string {
    if n < 0 then "-" + PrintNat(-n) else PrintNat(n)
  }

  /** The value of a digit in the bases up to 16; 16 if the character is none. */
  function DigitValue(c: char): nat {
    if '0' <= c <= '9' then c as nat - '0' as nat
    else if 'a' <= c <= 'f' then c as nat - 'a' as nat + 10
    else if 'A' <= c <= 'F' then c as nat - 'A' as nat + 10
    else 16
  }

  predicate IsSpace(c: char) {
    c == ' ' || '\t' <= c <= '\r'
  }

  /** The digits of the base from position k on, folded into acc; also where they end. */
  function Scan(s: string, base: nat, acc: nat, k: nat): (nat, nat)
    requires k <= |s|
    decreases |s| - k
  {
    if k < |s| && DigitValue(s[k]) < base then Scan(s, base, acc * base + DigitValue(s[k]), k + 1) else (acc, k)
  }

  function SkipSpaces(s: string, k: nat): (r: nat)
    requires k <= |s|
    ensures k <= r <= |s|
    decreases |s| - k
  {
    if k < |s| && IsSpace(s[k]) then SkipSpaces(s, k + 1) else k
  }

  /** strtol with base 0: spaces, a sign, then hexadecimal after 0x, octal after 0, else decimal.
      The second component is where the number ends, 0 if there is none. */
  function Strtol(s: string): (int, nat) {
    var start := SkipSpaces(s, 0);
    var negative := start < |s| && s[start] == '-';
    var k := if start < |s| && (s[start] == '-' || s[start] == '+') then start + 1 else start;
    var hex := k + 2 < |s| && s[k] == '0' && (s[k + 1] == 'x' || s[k + 1] == 'X') && DigitValue(s[k + 2]) < 16;
    var base := if hex then 16 else if k < |s| && s[k] == '0' then 8 else 10;
    var first := if hex then k + 2 else k;
    var (value, end) := Scan(s, base, 0, first);
    var n: int := value;
    if end == first then (0, 0) else (if negative then -n else n, end)
  }

  datatype Parsed = Error | Number(n: Int32)

  /** try_str_to_int; Error stands for the exit with a message. Numbers that do not fit a long
      do not fit an int either. */
  function ParseInt(s: string): Parsed {
    var (n, end) := Strtol(s);
    if n > INT_MAX || n < INT_MIN || end != |s| then Error else Number(n)
  }

  /** The value of a string of decimal digits. */
  function Value(s: string): nat {
    if s == "" then 0 else Value(s[..|s| - 1]) * 10 + DigitValue(s[|s| - 1])
  }

  predicate AllDecimal(s: string) {
    forall i :: 0 <= i < |s| ==> DigitValue(s[i]) < 10
  }

  lemma {:induction false} PrintedDigits(n: nat)
    ensures AllDecimal(PrintNat(n)) && Value(PrintNat(n)) == n
    ensures PrintNat(n)[0] == '0' ==> n == 0
    decreases n
  {
    if n >= 10 {
      PrintedDigits(n / 10);
      assert PrintNat(n)[..|PrintNat(n)| - 1] == PrintNat(n / 10);
    } else {
      assert PrintNat(n)[..0] == "";
    }
  }

  lemma ValueNext(s: string, from: nat, k: nat)
    requires from <= k < |s|
    ensures Value(s[from..k + 1]) == Value(s[from..k]) * 10 + DigitValue(s[k])
  {
    var t := s[from..k + 1];
    assert t[..|t| - 1] == s[from..k] && t[|t| - 1] == s[k];
  }

  lemma {:induction false} ScanAll(s: string, k: nat, from: nat)
    requires from <= k <= |s| && AllDecimal(s[from..])
    ensures Scan(s, 10, Value(s[from..k]), k) == (Value(s[from..]), |s|)
    decreases |s| - k
  {
    if k < |s| {
      assert s[from..][k - from] == s[k];
      ValueNext(s, from, k);
      ScanAll(s, k + 1, from);
    } else {
      assert s[from..k] == s[from..];
    }
  }

  /** Reading a printed integer gives it back. */
  lemma IntRoundTrip(n: int)
    requires INT_MIN <= n <= INT_MAX
    ensures ParseInt(PrintInt(n)) == Number(n)
  {
    var s := PrintInt(n);
    var m := if n < 0 then -n else n;
    var from := if n < 0 then 1 else 0;
    PrintedDigits(m);
    assert s[from..] == PrintNat(m);
    assert s[from] == PrintNat(m)[0];
    if m == 0 {
      assert s == "0";
      assert Scan(s, 8, 0, 1) == (0, 1);
    } else {
      ScanAll(s, from, from);
      assert s[from..from] == "";
    }
  }

  /** Digits that do not begin with a zero are read in base ten, with their sign, if the number is
      an int. */
  lemma DecimalParsed(digits: string)
    requires digits != "" && AllDecimal(digits) && digits[0] != '0'
    ensures ParseInt(digits) == if Value(digits) <= INT_MAX then Number(Value(digits)) else Error
  {
    assert digits[0..] == digits && digits[0..0] == "";
    ScanAll(digits, 0, 0);
  }

  lemma NegativeParsed(digits: string)
    requires digits != "" && AllDecimal(digits) && digits[0] != '0'
    ensures var n := 0 - Value(digits); ParseInt("-" + digits) == if n >= INT_MIN then Number(n) else Error
  {
    var s := "-" + digits;
    assert s[1..] == digits && s[1] == digits[0] && s[1..1] == "";
    ScanAll(s, 1, 1);
    assert SkipSpaces(s, 0) == 0;
  }

  lemma {:induction false} ScanStops(s: string, acc: nat, k: nat, end: nat)
    requires k <= end < |s| && DigitValue(s[end]) >= 10
    ensures Scan(s, 10, acc, k).1 <= end
    decreases end - k
  {
    if k < end && DigitValue(s[k]) < 10 {
      ScanStops(s, acc * 10 + DigitValue(s[k]), k + 1, end);
    }
  }

  /** Anything behind the digits is an error; no text at all reads as zero. */
  lemma TrailingRejected(digits: string, c: char, rest: string)
    requires digits != "" && AllDecimal(digits) && digits[0] != '0' && DigitValue(c) >= 10
    ensures ParseInt(digits + [c] + rest) == Error && ParseInt("") == Number(0)
  {
    var s := digits + [c] + rest;
    assert s[0] == digits[0] && s[|digits|] == c;
    ScanStops(s, 0, 0, |digits|);
  }

  function PowerOfTen(k: nat): nat {
    if k == 0 then 1 else 10 * PowerOfTen(k - 1)
  }

  lemma {:induction false} PrintedLength(n: nat, k: nat)
    requires k > 0 && n < PowerOfTen(k)
    ensures |PrintNat(n)| <= k
    decreases k
  {
    if n >= 10 {
      PrintedLength(n / 10, k - 1);
    }
  }

  /** A printed int and its terminator fit the 16 bytes set aside for them. */
  lemma IntFits(n: int)
    requires INT_MIN <= n <= INT_MAX
    ensures |PrintInt(n)| + 1 <= 16
  {
    assert PowerOfTen(5) == 100_000;
    assert PowerOfTen(10) == 10_000_000_000;
    PrintedLength(if n < 0 then -n else n, 10);
  }
}

/** The option parser of libargs/args.c for string and integer options. */
module ArgParsing {
  import opened Integers
  import opened HashMaps

  datatype Value = Text(s: string) | Int(n: Int32)

  /** The type of an option is that of its fallback; values are those found so far. */
  datatype OptionState = OptionState(fallback: Value, values: seq<Value>) {
    predicate Found() {
      values != []
    }

    function Get(): Value {
      if values != [] then values[|values| - 1] else fallback
    }

    /** Every value has the type of the option. */
    ghost predicate Typed() {
      forall i :: 0 <= i < |values| ==> (values[i].Text? <==> fallback.Text?)
    }
  }

  /** Parsing neither adds options nor changes their types. */
  ghost predicate SameKinds(before: seq<OptionState>, after: seq<OptionState>) {
    && |after| == |before|
    && forall j :: 0 <= j < |before| ==>
         after[j].fallback == before[j].fallback && (before[j].Typed() ==> after[j].Typed())
  }

  /** What the parser knows after some arguments; Exit is the end of the process. */
  datatype Parse = Go(options: seq<OptionState>, positional: seq<string>, rest: seq<string>) | Exit(status: nat)

  type Names = map<string, nat>

  ghost predicate Fits(names: Names, n: nat) {
    forall k :: k in names ==> names[k] < n
  }

  /** option_try_set at one position; Exit when an integer is malformed or out of range. */
  function TrySet(p: Parse, i: nat, arg: string): (r: Parse)
    requires p.Go? && i < |p.options|
    ensures r.Go? ==> SameKinds(p.options, r.options) && r.rest == p.rest && r.positional == p.positional
    ensures r.Go? ==> forall j :: 0 <= j < |p.options| && j != i ==> r.options[j] == p.options[j]
    ensures r.Go? ==> r.options[i].Found()
  {
    var o := p.options[i];
    if o.fallback.Text? then
      p.(options := p.options[i := o.(values := o.values + [Text(arg)])])
    else match ParseInt(arg)
      case Error => Exit(1)
      case Number(n) => p.(options := p.options[i := o.(values := o.values + [Int(n)])])
  }

  /** The option takes the next argument as its value. */
  function TakeNext(p: Parse, i: nat): (r: Parse)
    requires p.Go? && i < |p.options|
    ensures r.Go? ==> SameKinds(p.options, r.options) && |r.rest| < |p.rest|
  {
    if p.rest == [] then Exit(1) else TrySet(p.(rest := p.rest[1..]), i, p.rest[0])
  }

  lemma ShortNext(names: Names, help: bool, p: Parse, letters: string, i: nat)
    requires p.Go? && Fits(names, |p.options|) && i < |letters|
    ensures var letter := letters[i..i + 1];
      ShortOptions(names, help, p, letters[i..]) ==
      if letter !in names then Exit(if letters[i] == 'h' && help then 0 else 1)
      else
        var q := TakeNext(p, names[letter]);
        if q.Exit? then q else ShortOptions(names, help, q, letters[i + 1..])
  {
    assert letters[i..][..1] == letters[i..i + 1] && letters[i..][1..] == letters[i + 1..];
  }

  /** ap_handle_short_opt: every letter after the dash names an option. */
  function ShortOptions(names: Names, help: bool, p: Parse, letters: string): (r: Parse)
    requires p.Go? && Fits(names, |p.options|)
    ensures r.Go? ==> SameKinds(p.options, r.options) && |r.rest| <= |p.rest|
    decreases |letters|
  {
    if letters == "" then p
    else if letters[..1] !in names then Exit(if letters[0] == 'h' && help then 0 else 1)
    else
      var q := TakeNext(p, names[letters[..1]]);
      if q.Exit? then q else ShortOptions(names, help, q, letters[1..])
  }

  /** ap_handle_long_opt */
  function LongOption(names: Names, help: bool, p: Parse, name: string): (r: Parse)
    requires p.Go? && Fits(names, |p.options|)
    ensures r.Go? ==> SameKinds(p.options, r.options) && |r.rest| <= |p.rest|
  {
    if name in names then TakeNext(p, names[name]) else Exit(if name == "help" && help then 0 else 1)
  }

  /** The position of the first '='; the length if there is none. */
  function EqualsSign(s: string): (k: nat)
    ensures k <= |s|
  {
    if s == "" || s[0] == '=' then 0 else 1 + EqualsSign(s[1..])
  }

  /** ap_handle_equals_opt for name=value */
  function EqualsOption(names: Names, p: Parse, arg: string): (r: Parse)
    requires p.Go? && Fits(names, |p.options|) && EqualsSign(arg) < |arg|
    ensures r.Go? ==> SameKinds(p.options, r.options) && r.rest == p.rest
  {
    var name, value := arg[..EqualsSign(arg)], arg[EqualsSign(arg) + 1..];
    if name !in names || value == "" then Exit(1) else TrySet(p, names[name], value)
  }

  /** The first '=' is the one behind a name without any. */
  lemma {:induction false} FirstEqualsSign(name: string, rest: string)
    requires '=' !in name && (rest == "" || rest[0] == '=')
    ensures EqualsSign(name + rest) == |name|
    decreases |name|
  {
    if name == "" {
      assert name + rest == rest;
    } else {
      assert (name + rest)[1..] == name[1..] + rest;
      FirstEqualsSign(name[1..], rest);
    }
  }

  predicate IsDigit(c: char) {
    '0' <= c <= '9'
  }

  /** One round of ap_parse_stream, for the argument just taken. */
  function ParseOne(names: Names, help: bool, p: Parse, arg: string): (r: Parse)
    requires p.Go? && Fits(names, |p.options|)
    ensures r.Go? ==> SameKinds(p.options, r.options) && |r.rest| <= |p.rest|
  {
    if arg == "--" then p.(positional := p.positional + p.rest, rest := [])
    else if |arg| > 2 && arg[..2] == "--" then
      if EqualsSign(arg[2..]) < |arg| - 2 then EqualsOption(names, p, arg[2..])
      else LongOption(names, help, p, arg[2..])
    else if arg != "" && arg[0] == '-' then
      if |arg| == 1 || IsDigit(arg[1]) then p.(positional := p.positional + [arg])
      else if EqualsSign(arg) < |arg| then EqualsOption(names, p, arg[1..])
      else ShortOptions(names, help, p, arg[1..])
    else p.(positional := p.positional + [arg])
  }

  /** ap_parse_stream */
  function ParseAll(names: Names, help: bool, p: Parse): (r: Parse)
    requires p.Go? && Fits(names, |p.options|)
    ensures r.Go? ==> SameKinds(p.options, r.options) && r.rest == []
    decreases |p.rest|
  {
    if p.rest == [] then p
    else
      var q := ParseOne(names, help, p.(rest := p.rest[1..]), p.rest[0]);
      if q.Exit? then q else ParseAll(names, help, q)
  }

  /** ArgStream: the arguments and the index of the next one. */
  class ArgStream {
    const args: seq<string>
    var index: nat

    ghost predicate Valid()
      reads this
    {
      index <= |args|
    }

    function Rest(): seq<string>
      requires Valid()
      reads this
    {
      args[index..]
    }

    constructor (args: seq<string>)
      ensures Valid() && Rest() == args
    {
      this.args := args;
      index := 0;
    }

    method Next() returns (arg: string)
      requires Valid() && Rest() != []
      modifies this
      ensures Valid() && arg == old(Rest())[0] && Rest() == old(Rest())[1..]
    {
      arg := args[index];
      index := index + 1;
    }
  }

  datatype Outcome = Running | Exited(status: nat)

  class ArgParser {
    const optionMap: HashMap<nat>
    var options: seq<OptionState>
    var positional: seq<string>
    var hasHelp: bool

    ghost predicate Valid()
      reads this, optionMap, optionMap.entries
    {
      optionMap.Valid() && Fits(optionMap.contents, |options|)
    }

    ghost function Names(): Names
      reads optionMap
    {
      optionMap.contents
    }

    ghost function View(stream: ArgStream): Parse
      requires stream.Valid()
      reads this, stream
    {
      Go(options, positional, stream.Rest())
    }

    ghost function After(outcome: Outcome, stream: ArgStream): Parse
      requires stream.Valid()
      reads this, stream
    {
      if outcome.Exited? then Exit(outcome.status) else View(stream)
    }

    constructor ()
      ensures Valid() && options == [] && positional == [] && !hasHelp && Names() == map[]
      ensures fresh(optionMap) && fresh(optionMap.entries)
    {
      optionMap := new HashMap<nat>();
      options, positional, hasHelp := [], [], false;
    }

    /** ap_add_str_opt and ap_add_int_opt: one option under each of the words of its name. */
    method AddOption(name: string, fallback: Value)
      requires Valid()
      modifies this`options, optionMap, optionMap.entries
      ensures Valid() && options == old(options) + [OptionState(fallback, [])]
      ensures Names() == SetAll<nat>(old(Names()), Words(name), |old(options)|)
      ensures optionMap.entries == old(optionMap.entries) || fresh(optionMap.entries)
    {
      ghost var before, n := Names(), |options|;
      options := options + [OptionState(fallback, [])];
      optionMap.SetSplitKey(name, |options| - 1);
      SetAllFits(before, Words(name), n);
    }

    /** map_get on the option map. */
    method Lookup(name: string) returns (found: bool, option: nat)
      requires Valid()
      ensures found <==> name in Names()
      ensures found ==> option == Names()[name] < |options|
    {
      found, option := optionMap.Get(name);
    }

    /** option_try_set */
    method TakeValue(i: nat, arg: string, stream: ArgStream) returns (outcome: Outcome)
      requires i < |options| && stream.Valid()
      modifies this`options
      ensures |options| == old(|options|)
      ensures After(outcome, stream) == TrySet(old(View(stream)), i, arg)
    {
      var o := options[i];
      if o.fallback.Text? {
        options := options[i := o.(values := o.values + [Text(arg)])];
      } else {
        var parsed := ParseInt(arg);
        if parsed.Error? {
          return Exited(1);
        }
        options := options[i := o.(values := o.values + [Int(parsed.n)])];
      }
      return Running;
    }

    method TakeArgument(i: nat, stream: ArgStream) returns (outcome: Outcome)
      requires i < |options| && stream.Valid()
      modifies this`options, stream
      ensures stream.Valid() && |options| == old(|options|)
      ensures After(outcome, stream) == TakeNext(old(View(stream)), i)
    {
      if stream.index == |stream.args| {
        return Exited(1);
      }
      var arg := stream.Next();
      outcome := TakeValue(i, arg, stream);
    }

    /** ap_handle_short_opt */
    method HandleShort(letters: string, stream: ArgStream) returns (outcome: Outcome)
      requires Valid() && stream.Valid()
      modifies this`options, stream
      ensures Valid() && stream.Valid()
      ensures After(outcome, stream) == ShortOptions(Names(), hasHelp, old(View(stream)), letters)
    {
      for i := 0 to |letters|
        invariant Valid() && stream.Valid()
        invariant ShortOptions(Names(), hasHelp, View(stream), letters[i..])
               == ShortOptions(Names(), hasHelp, old(View(stream)), letters)
      {
        ShortNext(Names(), hasHelp, View(stream), letters, i);
        var found, option := Lookup(letters[i..i + 1]);
        if !found {
          return Exited(if letters[i] == 'h' && hasHelp then 0 else 1);
        }
        outcome := TakeArgument(option, stream);
        if outcome.Exited? {
          return;
        }
      }
      return Running;
    }

    /** ap_handle_long_opt */
    method HandleLong(name: string, stream: ArgStream) returns (outcome: Outcome)
      requires Valid() && stream.Valid()
      modifies this`options, stream
      ensures Valid() && stream.Valid()
      ensures After(outcome, stream) == LongOption(Names(), hasHelp, old(View(stream)), name)
    {
      var found, option := Lookup(name);
      if !found {
        return Exited(if name == "help" && hasHelp then 0 else 1);
      }
      outcome := TakeArgument(option, stream);
    }

    /** ap_handle_equals_opt */
    method HandleEquals(arg: string, stream: ArgStream) returns (outcome: Outcome)
      requires Valid() && stream.Valid() && EqualsSign(arg) < |arg|
      modifies this`options
      ensures Valid()
      ensures After(outcome, stream) == EqualsOption(Names(), old(View(stream)), arg)
    {
      var name, value := arg[..EqualsSign(arg)], arg[EqualsSign(arg) + 1..];
      var found, option := Lookup(name);
      if !found || value == "" {
        return Exited(1);
      }
      outcome := TakeValue(option, value, stream);
    }

    /** One round of ap_parse_stream. */
    method ParseArgument(stream: ArgStream) returns (outcome: Outcome)
      requires Valid() && stream.Valid() && stream.Rest() != []
      modifies this`options, this`positional, stream
      ensures Valid() && stream.Valid()
      ensures After(outcome, stream) ==
        ParseOne(Names(), hasHelp, Go(old(options), old(positional), old(stream.Rest())[1..]), old(stream.Rest())[0])
    {
      var arg := stream.Next();
      outcome := Running;
      if arg == "--" {
        positional := positional + stream.Rest();
        stream.index := |stream.args|;
      } else if |arg| > 2 && arg[..2] == "--" {
        if EqualsSign(arg[2..]) < |arg| - 2 {
          outcome := HandleEquals(arg[2..], stream);
        } else {
          outcome := HandleLong(arg[2..], stream);
        }
      } else if arg != "" && arg[0] == '-' {
        if |arg| == 1 || IsDigit(arg[1]) {
          positional := positional + [arg];
        } else if EqualsSign(arg) < |arg| {
          outcome := HandleEquals(arg[1..], stream);
        } else {
          outcome := HandleShort(arg[1..], stream);
        }
      } else {
        positional := positional + [arg];
      }
    }

    /** ap_parse_stream */
    method ParseStream(stream: ArgStream) returns (outcome: Outcome)
      requires Valid() && stream.Valid()
      modifies this`options, this`positional, stream
      ensures Valid() && stream.Valid()
      ensures After(outcome, stream) == ParseAll(Names(), hasHelp, old(View(stream)))
    {
      while stream.index < |stream.args|
        invariant Valid() && stream.Valid()
        invariant ParseAll(Names(), hasHelp, View(stream)) == ParseAll(Names(), hasHelp, old(View(stream)))
        decreases |stream.Rest()|
      {
        outcome := ParseArgument(stream);
        if outcome.Exited? {
          return;
        }
      }
      return Running;
    }
  }

  lemma {:induction false} SetAllFits(names: Names, words: seq<string>, n: nat)
    requires Fits(names, n)
    ensures Fits(SetAll(names, words, n), n + 1)
    decreases |words|
  {
    if words != [] {
      SetAllKeys(names, words, n);
    }
  }

  lemma {:induction false} SetAllKeys(names: Names, words: seq<string>, n: nat)
    ensures forall k :: k in SetAll(names, words, n) ==>
              SetAll(names, words, n)[k] == n || (k in names && SetAll(names, words, n)[k] == names[k])
    decreases |words|
  {
    if words != [] {
      SetAllKeys(names[words[0] := n], words[1..], n);
    }
  }
}

/** Game settings, the argument vector the client starts the server with (client/server_launcher.c),
    and the server reading it back (server/argument_parser.c). */
module Launcher {
  import opened Options
  import opened Integers
  import opened HashMaps
  import opened ArgParsing

  type UInt16 = x: int | 0 <= x < 0x1_0000
  type UInt32 = x: int | 0 <= x < 0x1_0000_0000

  const SETTING_NO_PORT: UInt16 := 0
  const SETTING_NO_PARENT: Int32 := 0

  datatype Settings = Settings(
    roomName: Option<string>, mapPath: Option<string>,
    width: UInt32, height: UInt32, parent: Int32, port: UInt16)

  /** The cast of an unsigned number to int. */
  function ToInt(x: UInt32): Int32 {
    if x > INT_MAX then x - 0x1_0000_0000 else x
  }

  /** Storing an int in an unsigned field keeps its low bits. */
  function ToUInt32(n: int): UInt32 {
    n % 0x1_0000_0000
  }

  function ToUInt16(n: int): UInt16 {
    n % 0x1_0000
  }

  lemma CastsUndo(x: UInt32, p: UInt16)
    ensures ToUInt32(ToInt(x)) == x && ToUInt16(p) == p
  {
    if x > INT_MAX {
      assert (x - 0x1_0000_0000) % 0x1_0000_0000 == x;
    }
  }

  /** The ways to spell an option: a letter or a name and then the value, or both joined by an
      equals sign. */
  datatype Form = Short | Long | Equals

  function Spelled(form: Form, letter: char, name: string, value: string): seq<string> {
    match form
    case Short => [['-', letter], value]
    case Long => ["--" + name, value]
    case Equals => ["--" + name + "=" + value]
  }

  /** How each option is spelled; the launcher uses the letters. */
  datatype Forms = Forms(room: Form, port: Form, path: Form, width: Form, height: Form, parent: Form)

  const LETTERS := Forms(Short, Short, Short, Short, Short, Short)

  function RoomArguments(s: Settings, f: Forms := LETTERS): seq<string> {
    if s.roomName.Some? then Spelled(f.room, 'n', "name", s.roomName.value) else []
  }

  function PortArguments(s: Settings, f: Forms := LETTERS): seq<string> {
    if s.port != SETTING_NO_PORT then Spelled(f.port, 'p', "port", PrintInt(s.port)) else []
  }

  function SizeArguments(s: Settings, f: Forms := LETTERS): seq<string> {
    Spelled(f.width, 'w', "width", PrintInt(ToInt(s.width)))
      + Spelled(f.height, 'h', "height", PrintInt(ToInt(s.height)))
  }

  function MapArguments(s: Settings, f: Forms := LETTERS): seq<string> {
    if s.mapPath.Some? then Spelled(f.path, 'm', "map", s.mapPath.value) else SizeArguments(s, f)
  }

  function ParentArguments(s: Settings, f: Forms := LETTERS): seq<string> {
    Spelled(f.parent, 'a', "parent", PrintInt(s.parent))
  }

  /** The argument vector of the server process. */
  function Arguments(s: Settings, f: Forms := LETTERS): seq<string> {
    ["./server"] + (RoomArguments(s, f) + (PortArguments(s, f) + (MapArguments(s, f) + ParentArguments(s, f))))
  }

  /** An equals sign needs a value behind it. */
  predicate Spellable(s: Settings, f: Forms) {
    && (f.room == Equals && s.roomName.Some? ==> s.roomName.value != "")
    && (f.path == Equals && s.mapPath.Some? ==> s.mapPath.value != "")
  }

  function Present(args: seq<string>): seq<Option<string>> {
    seq(|args|, i requires 0 <= i < |args| => Some(args[i]))
  }

  /** Two more arguments after those already there. */
  method Push(args: array<Option<string>>, index: nat, flag: string, value: string, ghost done: seq<string>)
    returns (next: nat)
    requires index + 2 <= args.Length && args[..index] == Present(done)
    modifies args
    ensures next == index + 2 && args[..next] == Present(done + [flag, value])
  {
    args[index] := Some(flag);
    args[index + 1] := Some(value);
    next := index + 2;
    assert args[..next] == args[..index] + Present([flag, value]);
    assert Present(done + [flag, value]) == Present(done) + Present([flag, value]);
  }

  method PushSize(args: array<Option<string>>, index: nat, s: Settings, ghost done: seq<string>) returns (next: nat)
    requires index + 4 <= args.Length && args[..index] == Present(done) && s.mapPath.None?
    modifies args
    ensures next == index + 4 && args[..next] == Present(done + MapArguments(s))
  {
    var width, height := PrintInt(ToInt(s.width)), PrintInt(ToInt(s.height));
    next := Push(args, index, "-w", width, done);
    next := Push(args, next, "-h", height, done + ["-w", width]);
    assert done + ["-w", width] + ["-h", height] == done + MapArguments(s);
  }

  method PushAccess(args: array<Option<string>>, index: nat, s: Settings, ghost done: seq<string>) returns (next: nat)
    requires index + 4 <= args.Length && args[..index] == Present(done)
    modifies args
    ensures index <= next <= index + 4 && args[..next] == Present(done + (RoomArguments(s) + PortArguments(s)))
  {
    next := index;
    assert done + [] == done;
    if s.roomName.Some? {
      next := Push(args, next, "-n", s.roomName.value, done);
    }
    ghost var added := done + RoomArguments(s);
    assert args[..next] == Present(added);
    assert added + [] == added;
    if s.port != SETTING_NO_PORT {
      next := Push(args, next, "-p", PrintInt(s.port), added);
    }
    assert added + PortArguments(s) == done + (RoomArguments(s) + PortArguments(s));
  }

  lemma ArgumentsSplit(s: Settings)
    ensures Arguments(s)
         == ["./server"] + (RoomArguments(s) + PortArguments(s)) + MapArguments(s) + ["-a", PrintInt(s.parent)]
  {
  }

  /** server_launcher_launch_server_process up to execv: the vector and its terminator fit the array. */
  method BuildArguments(s: Settings) returns (args: array<Option<string>>, index: nat)
    ensures args.Length == 13 && fresh(args) && index < 13
    ensures args[..index] == Present(Arguments(s)) && args[index] == None
  {
    args := new Option<string>[13](_ => None);
    args[0] := Some("./server");
    assert args[..1] == Present(["./server"]);
    index := PushAccess(args, 1, s, ["./server"]);
    ghost var done := ["./server"] + (RoomArguments(s) + PortArguments(s));
    if s.mapPath.Some? {
      index := Push(args, index, "-m", s.mapPath.value, done);
    } else {
      index := PushSize(args, index, s, done);
    }
    ArgumentsSplit(s);
    index := Push(args, index, "-a", PrintInt(s.parent), done + MapArguments(s));
    args[index] := None;
  }

  /** The server's options by name and letter; the numbers are positions in OPTIONS. */
  const PARENT := 0
  const NAME := 1
  const MAP := 2
  const WIDTH := 3
  const HEIGHT := 4
  const PORT := 5

  function Named(names: Names, long: string, short: string, i: nat): Names {
    names[long := i][short := i]
  }

  const IDENTITY_NAMES: Names := Named(Named(Named(map[], "parent", "a", PARENT), "name", "n", NAME), "map", "m", MAP)

  const NAMES: Names :=
    Named(Named(Named(IDENTITY_NAMES, "width", "w", WIDTH), "height", "h", HEIGHT), "port", "p", PORT)

  predicate LongNames(names: Names) {
    && "parent" in names && names["parent"] == PARENT && "name" in names && names["name"] == NAME
    && "map" in names && names["map"] == MAP && "width" in names && names["width"] == WIDTH
    && "height" in names && names["height"] == HEIGHT && "port" in names && names["port"] == PORT
  }

  predicate ShortNames(names: Names) {
    && "a" in names && names["a"] == PARENT && "n" in names && names["n"] == NAME
    && "m" in names && names["m"] == MAP && "w" in names && names["w"] == WIDTH
    && "h" in names && names["h"] == HEIGHT && "p" in names && names["p"] == PORT
  }

  lemma NamesKnown()
    ensures LongNames(NAMES) && ShortNames(NAMES) && Fits(NAMES, 6)
  {
  }

  const IDENTITY_OPTIONS: seq<OptionState> :=
    [OptionState(Int(SETTING_NO_PARENT), []), OptionState(Text(""), []), OptionState(Text(""), [])]

  const OPTIONS: seq<OptionState> :=
    IDENTITY_OPTIONS + [OptionState(Int(0), []), OptionState(Int(0), []), OptionState(Int(0), [])]

  /** What argument_parser_parse ends with: the process may exit, or no settings are returned. */
  datatype Outcome = Terminated(status: nat) | Rejected | Accepted(settings: Settings)

  ghost predicate ServerOptions(o: seq<OptionState>) {
    SameKinds(OPTIONS, o)
  }

  lemma AllTyped(o: seq<OptionState>)
    requires ServerOptions(o)
    ensures forall i :: 0 <= i < |o| ==> o[i].Typed() && o[i].fallback == OPTIONS[i].fallback
  {
    assert forall i :: 0 <= i < |o| ==> OPTIONS[i].Typed();
  }

  /** argument_parser_get_str_copy */
  function CopyText(o: OptionState): Option<string>
    requires o.Typed() && o.fallback.Text?
  {
    if o.Found() then Some(o.Get().s) else None
  }

  function NumberOf(o: OptionState): Int32
    requires o.Typed() && o.fallback.Int?
  {
    o.Get().n
  }

  /** The settings out of the parsed options. */
  function Collect(o: seq<OptionState>): Outcome
    requires ServerOptions(o)
  {
    AllTyped(o);
    if !o[NAME].Found() && !o[PORT].Found() then Rejected
    else if !o[MAP].Found() && (!o[WIDTH].Found() || !o[HEIGHT].Found()) then Rejected
    else Accepted(Settings(
      CopyText(o[NAME]), CopyText(o[MAP]),
      ToUInt32(NumberOf(o[WIDTH])), ToUInt32(NumberOf(o[HEIGHT])),
      NumberOf(o[PARENT]), ToUInt16(NumberOf(o[PORT]))))
  }

  /** argument_parser_parse as a function of the argument vector. */
  function ParseSettings(argv: seq<string>): Outcome {
    var p := ParseAll(NAMES, true, Go(OPTIONS, [], if argv == [] then [] else argv[1..]));
    if p.Exit? then Terminated(p.status) else Collect(p.options)
  }

  lemma TwoWords(a: string, b: string)
    requires a != "" && b != "" && ' ' !in a && ' ' !in b
    ensures Words(a + " " + b) == [a, b]
  {
    FirstWord(b, "");
    assert b + "" == b;
    assert (" " + b)[1..] == b;
    assert Words(" " + b) == [b];
    FirstWord(a, " " + b);
    assert a + " " + b == a + (" " + b);
  }

  lemma FirstWord(a: string, rest: string)
    requires a != "" && ' ' !in a && (rest == "" || rest[0] == ' ')
    ensures Words(a + rest) == [a] + Words(rest)
  {
    OneWord(a, rest);
    var s := a + rest;
    assert s[0] in a && s[|a|..] == rest && s[..|a|] == a;
  }

  lemma {:induction false} OneWord(a: string, rest: string)
    requires ' ' !in a && (rest == "" || rest[0] == ' ')
    ensures WordLength(a + rest) == |a|
    decreases |a|
  {
    if a == "" {
      assert a + rest == rest;
    } else {
      assert (a + rest)[1..] == a[1..] + rest;
      OneWord(a[1..], rest);
    }
  }

  /** Both names of an option come to stand for it. */
  lemma BothNames(names: Names, a: string, b: string, i: nat)
    requires a != "" && b != "" && ' ' !in a && ' ' !in b
    ensures SetAll<nat>(names, Words(a + " " + b), i) == names[a := i][b := i]
  {
    TwoWords(a, b);
    assert [a, b][1..] == [b] && [b][1..] == [];
    assert SetAll<nat>(names[a := i], [b], i) == names[a := i][b := i];
  }

  method Register(parser: ArgParser, long: string, short: string, fallback: Value)
    requires parser.Valid()
    requires long != "" && short != "" && ' ' !in long && ' ' !in short
    modifies parser`options, parser.optionMap, parser.optionMap.entries
    ensures parser.Valid() && parser.options == old(parser.options) + [OptionState(fallback, [])]
    ensures parser.Names() == Named(old(parser.Names()), long, short, |old(parser.options)|)
    ensures fresh({parser.optionMap.entries} - {old(parser.optionMap.entries)})
  {
    BothNames(parser.Names(), long, short, |parser.options|);
    parser.AddOption(long + " " + short, fallback);
  }

  /** The first three registrations, and then the other three. */
  method RegisterIdentity(parser: ArgParser)
    requires parser.Valid() && parser.options == [] && parser.Names() == map[]
    modifies parser`options, parser.optionMap, parser.optionMap.entries
    ensures parser.Valid() && parser.options == IDENTITY_OPTIONS && parser.Names() == IDENTITY_NAMES
    ensures fresh({parser.optionMap.entries} - {old(parser.optionMap.entries)})
  {
    Register(parser, "parent", "a", Int(SETTING_NO_PARENT));
    assert parser.options == IDENTITY_OPTIONS[..1] && parser.Names() == Named(map[], "parent", "a", PARENT);
    Register(parser, "name", "n", Text(""));
    assert parser.options == IDENTITY_OPTIONS[..2];
    Register(parser, "map", "m", Text(""));
  }

  method RegisterNumbers(parser: ArgParser)
    requires parser.Valid() && parser.options == IDENTITY_OPTIONS && parser.Names() == IDENTITY_NAMES
    modifies parser`options, parser.optionMap, parser.optionMap.entries
    ensures parser.Valid() && parser.options == OPTIONS && parser.Names() == NAMES
    ensures fresh({parser.optionMap.entries} - {old(parser.optionMap.entries)})
  {
    Register(parser, "width", "w", Int(0));
    Register(parser, "height", "h", Int(0));
    Register(parser, "port", "p", Int(0));
  }

  /** ap_get_opt */
  method GetOption(parser: ArgParser, name: string) returns (o: OptionState)
    requires parser.Valid() && name in parser.Names()
    ensures name in parser.Names() && parser.Names()[name] < |parser.options|
    ensures o == parser.options[parser.Names()[name]]
  {
    var found, i := parser.Lookup(name);
    o := parser.options[i];
  }

  /** The first part of argument_parser_parse. */
  method NewParser() returns (parser: ArgParser)
    ensures parser.Valid() && fresh(parser) && fresh(parser.optionMap) && fresh(parser.optionMap.entries)
    ensures parser.options == OPTIONS && parser.Names() == NAMES && parser.positional == [] && parser.hasHelp
  {
    parser := new ArgParser();
    parser.hasHelp := true;
    RegisterIdentity(parser);
    RegisterNumbers(parser);
  }

  /** argument_parser_parse */
  method ParseArguments(argv: seq<string>) returns (outcome: Outcome)
    ensures outcome == ParseSettings(argv)
  {
    var parser := NewParser();
    var stream := new ArgStream(if argv == [] then [] else argv[1..]);
    var parsed := parser.ParseStream(stream);
    if parsed.Exited? {
      return Terminated(parsed.status);
    }
    NamesKnown();
    outcome := CollectSettings(parser);
  }

  /** The part of argument_parser_parse after ap_parse. */
  method CollectSettings(parser: ArgParser) returns (outcome: Outcome)
    requires parser.Valid() && LongNames(parser.Names()) && ServerOptions(parser.options)
    ensures outcome == Collect(parser.options)
  {
    var name := GetOption(parser, "name");
    var port := GetOption(parser, "port");
    if !name.Found() && !port.Found() {
      return Rejected;
    }
    var path := GetOption(parser, "map");
    var width := GetOption(parser, "width");
    var height := GetOption(parser, "height");
    if !path.Found() && (!width.Found() || !height.Found()) {
      return Rejected;
    }
    var parent := GetOption(parser, "parent");
    AllTyped(parser.options);
    outcome := Accepted(Settings(
      CopyText(name), CopyText(path), ToUInt32(NumberOf(width)), ToUInt32(NumberOf(height)),
      NumberOf(parent), ToUInt16(NumberOf(port))));
  }

  function Given(o: seq<OptionState>, i: nat, v: Value): seq<OptionState>
    requires i < |o|
  {
    o[i := o[i].(values := o[i].values + [v])]
  }

  function Flag(letter: char): string {
    ['-', letter]
  }

  /** A dash, a letter that names an option, and any next argument whatever its text. */
  lemma PairParsed(names: Names, p: Parse, letter: char, i: nat, value: string, more: seq<string>)
    requires p.Go? && Fits(names, |p.options|) && p.rest == [Flag(letter), value] + more
    requires [letter] in names && names[[letter]] == i && letter != '-' && letter != '=' && !IsDigit(letter)
    ensures i < |p.options|
    ensures var q := TrySet(p.(rest := more), i, value);
      ParseAll(names, true, p) == if q.Exit? then q else ParseAll(names, true, q)
  {
    var after := p.(rest := p.rest[1..]);
    assert after.rest == [value] + more && after.rest[1..] == more;
    var q := TakeNext(after, i);
    OneLetter(names, after, letter);
    if q.Go? {
      assert ShortOptions(names, true, q, "") == q;
    }
  }

  lemma OneLetter(names: Names, p: Parse, letter: char)
    requires p.Go? && Fits(names, |p.options|) && [letter] in names
    requires letter != '-' && letter != '=' && !IsDigit(letter)
    ensures ParseOne(names, true, p, Flag(letter)) == TakeNext(p, names[[letter]])
  {
    var arg := Flag(letter);
    assert arg[1..] == [letter] && [letter][..1] == [letter] && [letter][1..] == "" && arg[1..][1..] == "";
    assert EqualsSign("") == 0 && EqualsSign([letter]) == 1 && EqualsSign(arg) == 2;
    assert arg != "--" by { assert arg[1] != "--"[1]; }
    var q := TakeNext(p, names[[letter]]);
    assert ShortOptions(names, true, p, [letter]) == if q.Exit? then q else ShortOptions(names, true, q, "");
  }

  /** An argument that is no option, or looks like a negative number, is kept apart and changes
      nothing else; two dashes keep everything behind them. */
  lemma PositionalKept(names: Names, p: Parse, arg: string, more: seq<string>)
    requires p.Go? && Fits(names, |p.options|) && p.rest == [arg] + more
    ensures arg == "" || arg[0] != '-' || arg == "-" || (|arg| > 1 && arg[0] == '-' && IsDigit(arg[1])) ==>
      ParseAll(names, true, p) == ParseAll(names, true, Go(p.options, p.positional + [arg], more))
    ensures arg == "--" ==> ParseAll(names, true, p) == Go(p.options, p.positional + more, [])
  {
    assert p.rest[0] == arg && p.rest[1..] == more;
    if arg == "--" {
      assert ParseAll(names, true, Go(p.options, p.positional + more, [])) == Go(p.options, p.positional + more, []);
    }
  }

  /** An unknown name or letter ends the process, with success only if it asks for help. */
  lemma UnknownExits(names: Names, p: Parse, name: string, letter: char, more: seq<string>)
    requires p.Go? && Fits(names, |p.options|) && name != "" && '=' !in name && name !in names
    requires [letter] !in names && letter != '-' && letter != '=' && !IsDigit(letter)
    ensures ParseAll(names, true, p.(rest := ["--" + name] + more)) == Exit(if name == "help" then 0 else 1)
    ensures ParseAll(names, true, p.(rest := [Flag(letter)] + more)) == Exit(if letter == 'h' then 0 else 1)
  {
    var long, short := "--" + name, Flag(letter);
    assert (["--" + name] + more)[1..] == more && ([short] + more)[1..] == more;
    FirstEqualsSign(name, "");
    assert long[2..] == name && long[..2] == "--" && name + "" == name;
    assert short[1..] == [letter] && [letter][..1] == [letter] && [letter][1..] == "" && short[1..][1..] == "";
    assert EqualsSign("") == 0 && EqualsSign([letter]) == 1 && EqualsSign(short) == 2;
    assert short != "--" by { assert short[1] != "--"[1]; }
  }

  lemma LongParsed(names: Names, p: Parse, name: string, i: nat, value: string, more: seq<string>)
    requires p.Go? && Fits(names, |p.options|) && p.rest == ["--" + name, value] + more
    requires name in names && names[name] == i && name != "" && '=' !in name
    ensures i < |p.options|
    ensures var q := TrySet(p.(rest := more), i, value);
      ParseAll(names, true, p) == if q.Exit? then q else ParseAll(names, true, q)
  {
    var arg := "--" + name;
    var after := p.(rest := p.rest[1..]);
    assert p.rest[0] == arg && after.rest == [value] + more && after.rest[1..] == more;
    FirstEqualsSign(name, "");
    assert arg[2..] == name && arg[..2] == "--" && name + "" == name;
    assert ParseOne(names, true, after, arg) == TakeNext(after, i);
  }

  lemma EqualsParsed(names: Names, p: Parse, name: string, i: nat, value: string, more: seq<string>)
    requires p.Go? && Fits(names, |p.options|) && p.rest == ["--" + name + "=" + value] + more
    requires name in names && names[name] == i && name != "" && '=' !in name
    ensures i < |p.options|
    ensures value == "" ==> ParseAll(names, true, p) == Exit(1)
    ensures var q := TrySet(p.(rest := more), i, value);
      value != "" ==> ParseAll(names, true, p) == if q.Exit? then q else ParseAll(names, true, q)
  {
    var arg := "--" + name + "=" + value;
    var after := p.(rest := more);
    assert p.rest[0] == arg && p.rest[1..] == more;
    EqualsSplit(name, value);
    assert arg[2..] == name + ("=" + value) && arg[..2] == "--";
    assert ParseOne(names, true, after, arg) == EqualsOption(names, after, name + ("=" + value));
  }

  lemma EqualsSplit(name: string, value: string)
    requires '=' !in name
    ensures var s := name + ("=" + value); var k := EqualsSign(s);
      k < |s| && s[..k] == name && s[k + 1..] == value
  {
    FirstEqualsSign(name, "=" + value);
  }

  /** An option is understood in each of its forms. */
  lemma SpelledParsed(names: Names, p: Parse, form: Form, letter: char, name: string, i: nat, value: string,
                      more: seq<string>)
    requires p.Go? && Fits(names, |p.options|) && p.rest == Spelled(form, letter, name, value) + more
    requires [letter] in names && names[[letter]] == i && letter != '-' && letter != '=' && !IsDigit(letter)
    requires name in names && names[name] == i && name != "" && '=' !in name && (form == Equals ==> value != "")
    ensures i < |p.options|
    ensures var q := TrySet(p.(rest := more), i, value);
      ParseAll(names, true, p) == if q.Exit? then q else ParseAll(names, true, q)
  {
    match form
    case Short => PairParsed(names, p, letter, i, value, more);
    case Long => LongParsed(names, p, name, i, value, more);
    case Equals => EqualsParsed(names, p, name, i, value, more);
  }

  lemma TextParsed(names: Names, p: Parse, form: Form, letter: char, name: string, i: nat, value: string,
                   more: seq<string>)
    requires p.Go? && Fits(names, |p.options|) && p.rest == Spelled(form, letter, name, value) + more
    requires [letter] in names && names[[letter]] == i && letter != '-' && letter != '=' && !IsDigit(letter)
    requires name in names && names[name] == i && name != "" && '=' !in name && (form == Equals ==> value != "")
    requires i < |p.options| && p.options[i].fallback.Text?
    ensures ParseAll(names, true, p) == ParseAll(names, true, Go(Given(p.options, i, Text(value)), p.positional, more))
  {
    SpelledParsed(names, p, form, letter, name, i, value, more);
  }

  lemma NumberParsed(names: Names, p: Parse, form: Form, letter: char, name: string, i: nat, n: Int32,
                     more: seq<string>)
    requires p.Go? && Fits(names, |p.options|) && p.rest == Spelled(form, letter, name, PrintInt(n)) + more
    requires [letter] in names && names[[letter]] == i && letter != '-' && letter != '=' && !IsDigit(letter)
    requires name in names && names[name] == i && name != "" && '=' !in name
    requires i < |p.options| && p.options[i].fallback.Int?
    ensures ParseAll(names, true, p) == ParseAll(names, true, Go(Given(p.options, i, Int(n)), p.positional, more))
  {
    IntRoundTrip(n);
    PrintedSomething(n);
    SpelledParsed(names, p, form, letter, name, i, PrintInt(n), more);
  }

  lemma PrintedSomething(n: Int32)
    ensures PrintInt(n) != ""
  {
  }

  /** The types of the server's options. */
  predicate Kinded(o: seq<OptionState>) {
    && |o| == 6 && o[NAME].fallback.Text? && o[MAP].fallback.Text?
    && o[PARENT].fallback.Int? && o[WIDTH].fallback.Int? && o[HEIGHT].fallback.Int? && o[PORT].fallback.Int?
  }

  /** The options after each group of arguments. */
  function WithRoom(o: seq<OptionState>, s: Settings): (r: seq<OptionState>)
    requires Kinded(o)
    ensures Kinded(r)
  {
    if s.roomName.Some? then Given(o, NAME, Text(s.roomName.value)) else o
  }

  function WithPort(o: seq<OptionState>, s: Settings): (r: seq<OptionState>)
    requires Kinded(o)
    ensures Kinded(r)
  {
    if s.port != SETTING_NO_PORT then Given(o, PORT, Int(s.port)) else o
  }

  function WithMap(o: seq<OptionState>, s: Settings): (r: seq<OptionState>)
    requires Kinded(o)
    ensures Kinded(r)
  {
    if s.mapPath.Some? then Given(o, MAP, Text(s.mapPath.value))
    else Given(Given(o, WIDTH, Int(ToInt(s.width))), HEIGHT, Int(ToInt(s.height)))
  }

  lemma RoomParsed(names: Names, o: seq<OptionState>, s: Settings, f: Forms, more: seq<string>)
    requires Kinded(o) && Fits(names, 6) && ShortNames(names) && LongNames(names) && Spellable(s, f)
    ensures ParseAll(names, true, Go(o, [], RoomArguments(s, f) + more)) ==
      ParseAll(names, true, Go(WithRoom(o, s), [], more))
  {
    if s.roomName.Some? {
      var p := Go(o, [], RoomArguments(s, f) + more);
      TextParsed(names, p, f.room, 'n', "name", NAME, s.roomName.value, more);
    } else {
      assert RoomArguments(s, f) + more == more;
    }
  }

  lemma PortParsed(names: Names, o: seq<OptionState>, s: Settings, f: Forms, more: seq<string>)
    requires Kinded(o) && Fits(names, 6) && ShortNames(names) && LongNames(names)
    ensures ParseAll(names, true, Go(o, [], PortArguments(s, f) + more)) ==
      ParseAll(names, true, Go(WithPort(o, s), [], more))
  {
    if s.port != SETTING_NO_PORT {
      NumberParsed(names, Go(o, [], PortArguments(s, f) + more), f.port, 'p', "port", PORT, s.port, more);
    } else {
      assert PortArguments(s, f) + more == more;
    }
  }

  lemma SizeParsed(names: Names, o: seq<OptionState>, s: Settings, f: Forms, more: seq<string>)
    requires Kinded(o) && Fits(names, 6) && ShortNames(names) && LongNames(names)
    ensures ParseAll(names, true, Go(o, [], SizeArguments(s, f) + more)) ==
      ParseAll(names, true, Go(Given(Given(o, WIDTH, Int(ToInt(s.width))), HEIGHT, Int(ToInt(s.height))), [], more))
  {
    var w, h := ToInt(s.width), ToInt(s.height);
    var rest := Spelled(f.height, 'h', "height", PrintInt(h)) + more;
    assert SizeArguments(s, f) + more == Spelled(f.width, 'w', "width", PrintInt(w)) + rest;
    NumberParsed(names, Go(o, [], SizeArguments(s, f) + more), f.width, 'w', "width", WIDTH, w, rest);
    NumberParsed(names, Go(Given(o, WIDTH, Int(w)), [], rest), f.height, 'h', "height", HEIGHT, h, more);
  }

  lemma MapParsed(names: Names, o: seq<OptionState>, s: Settings, f: Forms, more: seq<string>)
    requires Kinded(o) && Fits(names, 6) && ShortNames(names) && LongNames(names) && Spellable(s, f)
    ensures ParseAll(names, true, Go(o, [], MapArguments(s, f) + more)) ==
      ParseAll(names, true, Go(WithMap(o, s), [], more))
  {
    if s.mapPath.Some? {
      TextParsed(names, Go(o, [], MapArguments(s, f) + more), f.path, 'm', "map", MAP, s.mapPath.value, more);
    } else {
      SizeParsed(names, o, s, f, more);
    }
  }

  function Final(o: seq<OptionState>, s: Settings): (r: seq<OptionState>)
    requires Kinded(o)
    ensures Kinded(r)
  {
    Given(WithMap(WithPort(WithRoom(o, s), s), s), PARENT, Int(s.parent))
  }

  /** All the arguments are understood, in order. */
  lemma AllParsed(names: Names, o: seq<OptionState>, s: Settings, f: Forms)
    requires Kinded(o) && Fits(names, 6) && ShortNames(names) && LongNames(names) && Spellable(s, f)
    ensures ParseAll(names, true, Go(o, [], Arguments(s, f)[1..])) == Go(Final(o, s), [], [])
  {
    var mapAndParent := MapArguments(s, f) + ParentArguments(s, f);
    assert Arguments(s, f)[1..] == RoomArguments(s, f) + (PortArguments(s, f) + mapAndParent);
    RoomParsed(names, o, s, f, PortArguments(s, f) + mapAndParent);
    var o1 := WithRoom(o, s);
    PortParsed(names, o1, s, f, mapAndParent);
    var o2 := WithPort(o1, s);
    MapParsed(names, o2, s, f, ParentArguments(s, f));
    ParentParsed(names, WithMap(o2, s), s, f);
  }

  lemma ParentParsed(names: Names, o: seq<OptionState>, s: Settings, f: Forms)
    requires Kinded(o) && Fits(names, 6) && ShortNames(names) && LongNames(names)
    ensures ParseAll(names, true, Go(o, [], ParentArguments(s, f))) == Go(Given(o, PARENT, Int(s.parent)), [], [])
  {
    assert ParentArguments(s, f) == ParentArguments(s, f) + [];
    NumberParsed(names, Go(o, [], ParentArguments(s, f)), f.parent, 'a', "parent", PARENT, s.parent, []);
  }

  predicate Holds(o: OptionState, fallback: Value, values: seq<Value>) {
    o == OptionState(fallback, values)
  }

  lemma FinalValues(s: Settings)
    ensures Kinded(OPTIONS)
    ensures var o := Final(OPTIONS, s);
      && Holds(o[PARENT], Int(SETTING_NO_PARENT), [Int(s.parent)])
      && Holds(o[NAME], Text(""), if s.roomName.Some? then [Text(s.roomName.value)] else [])
      && Holds(o[MAP], Text(""), if s.mapPath.Some? then [Text(s.mapPath.value)] else [])
      && Holds(o[WIDTH], Int(0), if s.mapPath.Some? then [] else [Int(ToInt(s.width))])
      && Holds(o[HEIGHT], Int(0), if s.mapPath.Some? then [] else [Int(ToInt(s.height))])
      && Holds(o[PORT], Int(0), if s.port == SETTING_NO_PORT then [] else [Int(s.port)])
  {
    assert Kinded(OPTIONS);
  }

  lemma FinalServerOptions(s: Settings)
    requires Kinded(OPTIONS)
    ensures ServerOptions(Final(OPTIONS, s))
  {
    FinalValues(s);
    var o := Final(OPTIONS, s);
    forall j | 0 <= j < |o| ensures o[j].Typed() && o[j].fallback == OPTIONS[j].fallback {
      assert j == PARENT || j == NAME || j == MAP || j == WIDTH || j == HEIGHT || j == PORT;
    }
  }

  function Survives(s: Settings): Outcome {
    if s.roomName.None? && s.port == SETTING_NO_PORT then Rejected
    else if s.mapPath.Some? then Accepted(s.(width := 0, height := 0))
    else Accepted(s)
  }

  lemma FinalCollected(s: Settings)
    requires Kinded(OPTIONS) && ServerOptions(Final(OPTIONS, s))
    ensures Collect(Final(OPTIONS, s)) == Survives(s)
  {
    FinalValues(s);
    CastsUndo(s.width, s.port);
    CastsUndo(s.height, s.port);
  }

  /** What the server makes of the arguments of any settings, however they are spelled: sizes do not
      survive beside a map path, and settings without a room name and a port are turned down. */
  lemma ParsedSettings(s: Settings, f: Forms := LETTERS)
    requires Spellable(s, f)
    ensures ParseSettings(Arguments(s, f)) == Survives(s)
  {
    NamesKnown();
    FinalValues(s);
    AllParsed(NAMES, OPTIONS, s, f);
    FinalServerOptions(s);
    FinalCollected(s);
  }

  lemma TenFlat<T>(z: T, a: T, b: T, c: T, d: T, e: T, f: T, g: T, h: T, i: T, j: T)
    ensures [z] + ([a, b] + ([c, d] + ([e, f] + [g, h] + [i, j]))) == [z, a, b, c, d, e, f, g, h, i, j]
  {
  }

  lemma FiveFlat<T>(z: T, a: T, b: T, c: T, d: T, e: T)
    ensures [z] + ([a] + ([b] + ([c] + [d] + [e]))) == [z, a, b, c, d, e]
  {
  }

  /** A command line as the launcher writes it ... */
  lemma CommandLine(room: string, port: UInt16, width: UInt32, height: UInt32, parent: Int32)
    requires port != 0 && width <= INT_MAX && height <= INT_MAX
    ensures ParseSettings(["./server", "-n", room, "-p", PrintInt(port), "-w", PrintInt(width),
                           "-h", PrintInt(height), "-a", PrintInt(parent)]) ==
      Accepted(Settings(Some(room), None, width, height, parent, port))
  {
    ParsedSettings(Settings(Some(room), None, width, height, parent, port));
    TenFlat("./server", "-n", room, "-p", PrintInt(port), "-w", PrintInt(width), "-h", PrintInt(height),
            "-a", PrintInt(parent));
  }

  /** ... and the same with names and equals signs. */
  lemma NamedCommandLine(room: string, port: UInt16, width: UInt32, height: UInt32, parent: Int32)
    requires port != 0 && width <= INT_MAX && height <= INT_MAX && room != ""
    ensures ParseSettings(["./server", "--name=" + room, "--port=" + PrintInt(port), "--width=" + PrintInt(width),
                           "--height=" + PrintInt(height), "--parent=" + PrintInt(parent)]) ==
      Accepted(Settings(Some(room), None, width, height, parent, port))
  {
    ParsedSettings(Settings(Some(room), None, width, height, parent, port),
                   Forms(Equals, Equals, Equals, Equals, Equals, Equals));
    JoinedNames();
    FiveFlat("./server", "--name=" + room, "--port=" + PrintInt(port), "--width=" + PrintInt(width),
             "--height=" + PrintInt(height), "--parent=" + PrintInt(parent));
  }

  lemma JoinedNames()
    ensures "--" + "name" + "=" == "--name=" && "--" + "port" + "=" == "--port="
    ensures "--" + "width" + "=" == "--width=" && "--" + "height" + "=" == "--height="
    ensures "--" + "parent" + "=" == "--parent="
  {
  }

  /** An equals sign with nothing behind it ends the process. */
  lemma EmptyValueExits(s: Settings, f: Forms)
    requires f.room == Equals && s.roomName == Some("")
    ensures ParseSettings(Arguments(s, f)) == Terminated(1)
  {
    NamesKnown();
    var more := PortArguments(s, f) + (MapArguments(s, f) + ParentArguments(s, f));
    assert Arguments(s, f)[1..] == RoomArguments(s, f) + more;
    EqualsParsed(NAMES, Go(OPTIONS, [], Arguments(s, f)[1..]), "name", NAME, "", more);
  }

  /** Launching and parsing undo each other exactly for these settings. */
  lemma LaunchRoundTripIff(s: Settings)
    ensures ParseSettings(Arguments(s)) == Accepted(s) <==>
      && (s.roomName.Some? || s.port != SETTING_NO_PORT)
      && (s.mapPath.Some? ==> s.width == 0 && s.height == 0)
  {
    ParsedSettings(s);
  }

  const MIN_MAP_WIDTH: UInt32 := 10
  const MAX_MAP_WIDTH: UInt32 := 100
  const MIN_MAP_HEIGHT: UInt32 := 10
  const MAX_MAP_HEIGHT: UInt32 := 50

  function Clamp(min: UInt32, val: UInt32, max: UInt32): UInt32 {
    if val < min then min else if val > max then max else val
  }

  /** host_menu: the settings made of the strings and numbers typed in, none without a way to join.
      The parent is filled in by the launcher. */
  function MenuSettings(room: string, port: UInt16, path: string, width: UInt32, height: UInt32, parent: Int32)
    : Option<Settings>
  {
    if room == "" && port == SETTING_NO_PORT then None
    else
      var roomName := if room == "" then None else Some(room);
      if path != "" then Some(Settings(roomName, Some(path), 0, 0, parent, port))
      else Some(Settings(roomName, None, Clamp(MIN_MAP_WIDTH, width, MAX_MAP_WIDTH),
        Clamp(MIN_MAP_HEIGHT, height, MAX_MAP_HEIGHT), parent, port))
  }

  /** A size within the limits stays as typed, and any other becomes the nearest limit. */
  lemma ClampNearest(min: UInt32, val: UInt32, max: UInt32)
    requires min <= max
    ensures var r := Clamp(min, val, max);
      && min <= r <= max && (min <= val <= max ==> r == val) && (val < min ==> r == min) && (val > max ==> r == max)
  {
  }

  /** Whatever is typed into the host menu, the server is started with it: room name, port and
      path unless they are left empty, and without a path a size, each number as typed if it is
      within the limits and otherwise the nearest limit. */
  lemma MenuRoundTrip(room: string, port: UInt16, path: string, width: UInt32, height: UInt32, parent: Int32)
    ensures var menu := MenuSettings(room, port, path, width, height, parent);
      && (menu.None? <==> room == "" && port == 0)
      && (menu.Some? ==> ParseSettings(Arguments(menu.value)) == Accepted(menu.value)
                         && MenuKeeps(menu.value, room, port, path, width, height, parent))
  {
    var menu := MenuSettings(room, port, path, width, height, parent);
    if menu.Some? {
      LaunchRoundTripIff(menu.value);
      ClampNearest(MIN_MAP_WIDTH, width, MAX_MAP_WIDTH);
      ClampNearest(MIN_MAP_HEIGHT, height, MAX_MAP_HEIGHT);
    }
  }

  /** The settings are those typed in. */
  predicate MenuKeeps(s: Settings, room: string, port: UInt16, path: string, width: UInt32, height: UInt32,
                      parent: Int32)
  {
    && s.port == port && s.parent == parent
    && (if room == "" then s.roomName == None else s.roomName == Some(room))
    && (if path == "" then s.mapPath == None else s.mapPath == Some(path))
    && (path == "" ==>
          && 10 <= s.width <= 100 && 10 <= s.height <= 50
          && (10 <= width <= 100 ==> s.width == width) && (10 <= height <= 50 ==> s.height == height)
          && (width < 10 ==> s.width == 10) && (height < 10 ==> s.height == 10)
          && (width > 100 ==> s.width == 100) && (height > 50 ==> s.height == 50))
  }
}
