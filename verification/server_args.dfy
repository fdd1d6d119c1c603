/** The server's command-line handling: three settings with defaults, and a
    loop over `argv` from index 1 in which `--host`, `--port` and `--db` each
    take the following element as their value when there is one. The port
    value goes through `std::stoi`, whose exceptions are raised before the
    `try` block that handles start-up errors, so they are never caught there
    and end the process.

    `ParseCommandLine` is the loop as written. `Configure` states the same
    behaviour in two stages, which the lemmas below use: `Assignments` reads
    the arguments into the settings they request, in order, and `Assign`
    applies them to the defaults. */
module ServerArgs {
  import opened Wrappers
  import opened Decimal

  // ---------------------------------------------------------------------
  // std::stoi

  /** `std::isspace` in the C locale. */
  predicate IsCSpace(c: char) {
    c == ' ' || c == '\t' || c == '\n' || c == '\U{0B}' || c == '\U{0C}' || c == '\r'
  }

  function SkipSpace(s: string): (t: string)
    ensures |t| <= |s| && t == s[|s| - |t|..]
    ensures t == [] || !IsCSpace(t[0])
    ensures forall i :: 0 <= i < |s| - |t| ==> IsCSpace(s[i])
  {
    if s != [] && IsCSpace(s[0]) then
      var t := SkipSpace(s[1..]);
      assert s[1..][|s| - 1 - |t|..] == s[|s| - |t|..];
      assert forall i :: 1 <= i < |s| - |t| ==> s[i] == s[1..][i - 1];
      t
    else s
  }

  /** The longest prefix of `s` made of ASCII digits. */
  function LeadingDigits(s: string): (d: string)
    ensures |d| <= |s| && d == s[..|d|] && AllDigits(d)
    ensures |d| == |s| || !IsDigit(s[|d|])
  {
    if s != [] && IsDigit(s[0]) then
      var rest := LeadingDigits(s[1..]);
      assert s[1..][..|rest|] == s[1..|rest| + 1];
      [s[0]] + rest
    else []
  }

  datatype StoiError = InvalidArgument | OutOfRange

  const IntMin: int := -0x8000_0000
  const IntMax: int := 0x7FFF_FFFF

  /** `std::stoi(s)` with base 10: leading white space is skipped, one sign is
      allowed, then the longest run of digits is read and anything after it
      is ignored. No digit there is `std::invalid_argument`; a value outside
      the range of `int` is `std::out_of_range`. */
  function StoI(s: string): (r: Result<int, StoiError>)
    ensures r.Success? ==> IntMin <= r.value <= IntMax
    ensures r.Failure? && r.error == InvalidArgument <==> NumeralBody(s) == []
    ensures r.Failure? && r.error == OutOfRange <==>
              NumeralBody(s) != [] && !(IntMin <= SignOf(s) * DigitsValue(NumeralBody(s)) <= IntMax)
    ensures r.Success? ==> r.value == SignOf(s) * DigitsValue(NumeralBody(s))
  {
    var ds := NumeralBody(s);
    if ds == [] then Failure(InvalidArgument)
    else
      var v := SignOf(s) * DigitsValue(ds);
      if v < IntMin || v > IntMax then Failure(OutOfRange) else Success(v)
  }

  /** -1 when the first non-space character is a minus sign, else 1. */
  function SignOf(s: string): int {
    var t := SkipSpace(s);
    if t != [] && t[0] == '-' then -1 else 1
  }

  /** The digits `std::stoi` reads: after white space and an optional sign. */
  function NumeralBody(s: string): (d: string)
    ensures AllDigits(d)
  {
    var t := SkipSpace(s);
    if t != [] && (t[0] == '+' || t[0] == '-') then LeadingDigits(t[1..]) else LeadingDigits(t)
  }

  lemma {:induction false} LeadingDigitsOfDigits(d: string, tail: string)
    requires AllDigits(d)
    requires tail == [] || !IsDigit(tail[0])
    ensures LeadingDigits(d + tail) == d
  {
    if d != [] {
      assert (d + tail)[1..] == d[1..] + tail;
      LeadingDigitsOfDigits(d[1..], tail);
    } else {
      assert d + tail == tail;
    }
  }

  /** What `std::stoi` reads from text that starts with digits. */
  lemma NumeralBodyOfDigits(d: string, tail: string)
    requires d != [] && AllDigits(d)
    requires tail == [] || !IsDigit(tail[0])
    ensures NumeralBody(d + tail) == d && SignOf(d + tail) == 1
  {
    var s := d + tail;
    assert s[0] == d[0];
    assert SkipSpace(s) == s;
    LeadingDigitsOfDigits(d, tail);
  }

  /** What `std::stoi` reads from text that starts with a minus sign and digits. */
  lemma NumeralBodyOfNegative(d: string, tail: string)
    requires d != [] && AllDigits(d)
    requires tail == [] || !IsDigit(tail[0])
    ensures NumeralBody("-" + d + tail) == d && SignOf("-" + d + tail) == -1
  {
    var s := "-" + d + tail;
    assert SkipSpace(s) == s;
    assert s[1..] == d + tail;
    LeadingDigitsOfDigits(d, tail);
  }

  /** Every `int` written in decimal, optionally followed by text that does
      not start with a digit, reads back as itself. */
  lemma StoIReadsIntText(n: int, tail: string)
    requires IntMin <= n <= IntMax
    requires tail == [] || !IsDigit(tail[0])
    ensures StoI(IntText(n) + tail) == Success(n)
  {
    if n < 0 {
      NumeralBodyOfNegative(NatText(-n), tail);
      assert IntText(n) + tail == "-" + NatText(-n) + tail;
    } else {
      NumeralBodyOfDigits(NatText(n), tail);
    }
  }

  lemma StoIRejectsEmpty()
    ensures StoI("") == Failure(InvalidArgument)
  {
  }

  /** Text whose first character is neither white space, a sign nor a digit
      (such as a host name given where a port was expected) is rejected. */
  lemma StoIRejectsNonNumeral(s: string)
    requires s != [] && !IsCSpace(s[0]) && s[0] != '+' && s[0] != '-' && !IsDigit(s[0])
    ensures StoI(s) == Failure(InvalidArgument)
  {
    assert SkipSpace(s) == s;
  }

  /** A numeral beyond the range of `int`, such as "2147483648", is
      `std::out_of_range` rather than a wrapped value. */
  lemma StoIRejectsOverflow(n: nat, tail: string)
    requires n > IntMax
    requires tail == [] || !IsDigit(tail[0])
    ensures StoI(NatText(n) + tail) == Failure(OutOfRange)
  {
    NumeralBodyOfDigits(NatText(n), tail);
  }

  /** A negative numeral below the range of `int`, such as "-2147483649", is
      `std::out_of_range` as well. */
  lemma StoIRejectsUnderflow(n: nat, tail: string)
    requires n > -IntMin
    requires tail == [] || !IsDigit(tail[0])
    ensures StoI("-" + NatText(n) + tail) == Failure(OutOfRange)
  {
    NumeralBodyOfNegative(NatText(n), tail);
  }

  /** Leading white space is skipped before the sign. */
  lemma StoISkipsLeadingSpace(c: char, t: string)
    requires IsCSpace(c)
    ensures StoI([c] + t) == StoI(t)
  {
    var s := [c] + t;
    assert s != [] && s[0] == c && s[1..] == t;
    assert SkipSpace(s) == SkipSpace(t);
  }

  // ---------------------------------------------------------------------
  // The argument loop

  datatype ServerConfig = ServerConfig(host: string, port: int, db: string)

  const DefaultHost := "0.0.0.0"
  const DefaultPort := 8080
  const DefaultDb := "postgresql://localhost:5432/pyracms"
  const Defaults := ServerConfig(DefaultHost, DefaultPort, DefaultDb)

  /** A `--port` value `std::stoi` rejects: the exception escapes `main`, so
      the process terminates without reaching the start-up error handler. */
  datatype ArgError = UncaughtStoiError(text: string, cause: StoiError)

  predicate IsFlag(arg: string) {
    arg == "--host" || arg == "--port" || arg == "--db"
  }

  /** A setting one flag and its value request; the port text is not yet parsed. */
  datatype Assignment = SetHost(host: string) | SetPort(text: string) | SetDb(db: string)

  function AssignmentFor(flag: string, value: string): Assignment
    requires IsFlag(flag)
  {
    if flag == "--host" then SetHost(value) else if flag == "--port" then SetPort(value) else SetDb(value)
  }

  /** The settings requested by `args` (the arguments after the program name),
      in order. A flag followed by a value consumes it, whatever the value
      says; a flag with nothing after it and any other argument are skipped. */
  function Assignments(args: seq<string>): (asg: seq<Assignment>)
    ensures 2 * |asg| <= |args|
    decreases |args|
  {
    if args == [] then []
    else if IsFlag(args[0]) && |args| >= 2 then [AssignmentFor(args[0], args[1])] + Assignments(args[2..])
    else Assignments(args[1..])
  }

  /** The settings after applying `asg` to `cfg` in order; the first port text
      `std::stoi` rejects stops everything. */
  function Assign(asg: seq<Assignment>, cfg: ServerConfig): Result<ServerConfig, ArgError>
    decreases |asg|
  {
    if asg == [] then Success(cfg)
    else match asg[0]
      case SetHost(h) => Assign(asg[1..], cfg.(host := h))
      case SetDb(d) => Assign(asg[1..], cfg.(db := d))
      case SetPort(t) =>
        match StoI(t)
        case Failure(e) => Failure(UncaughtStoiError(t, e))
        case Success(n) => Assign(asg[1..], cfg.(port := n))
  }

  /** The arguments after `argv[0]`; none when `argc` is 0. */
  function Args(argv: seq<string>): seq<string> {
    if |argv| <= 1 then [] else argv[1..]
  }

  /** The configuration `main` starts the server with, or the uncaught error. */
  function Configure(argv: seq<string>): Result<ServerConfig, ArgError> {
    Assign(Assignments(Args(argv)), Defaults)
  }

  lemma AssignCons(a: Assignment, rest: seq<Assignment>, cfg: ServerConfig)
    ensures Assign([a] + rest, cfg) == Assign(rest, cfg.(host := a.host)) <== a.SetHost?
    ensures Assign([a] + rest, cfg) == Assign(rest, cfg.(db := a.db)) <== a.SetDb?
    ensures Assign([a] + rest, cfg) == Failure(UncaughtStoiError(a.text, StoI(a.text).error))
              <== a.SetPort? && StoI(a.text).Failure?
    ensures Assign([a] + rest, cfg) == Assign(rest, cfg.(port := StoI(a.text).value))
              <== a.SetPort? && StoI(a.text).Success?
  {
    assert ([a] + rest)[1..] == rest;
  }

  /** Lines 12-26 of the server's `main`, as written. */
  method ParseCommandLine(argv: seq<string>) returns (r: Result<ServerConfig, ArgError>)
    ensures r == Configure(argv)
  {
    var host, port, db := DefaultHost, DefaultPort, DefaultDb;
    var i := 1;
    while i < |argv|
      invariant 1 <= i <= |argv| + 1
      invariant Configure(argv) == Assign(Assignments(if i <= |argv| then argv[i..] else []), ServerConfig(host, port, db))
      decreases |argv| - i
    {
      var arg := argv[i];
      var rest := argv[i..];
      assert rest[0] == arg;
      if arg == "--host" && i + 1 < |argv| {
        assert rest[2..] == argv[i + 2..];
        AssignCons(SetHost(argv[i + 1]), Assignments(argv[i + 2..]), ServerConfig(host, port, db));
        i := i + 1;
        host := argv[i];
      } else if arg == "--port" && i + 1 < |argv| {
        assert rest[2..] == argv[i + 2..];
        AssignCons(SetPort(argv[i + 1]), Assignments(argv[i + 2..]), ServerConfig(host, port, db));
        i := i + 1;
        var n := StoI(argv[i]);
        if n.Failure? {
          return Failure(UncaughtStoiError(argv[i], n.error));
        }
        port := n.value;
      } else if arg == "--db" && i + 1 < |argv| {
        assert rest[2..] == argv[i + 2..];
        AssignCons(SetDb(argv[i + 1]), Assignments(argv[i + 2..]), ServerConfig(host, port, db));
        i := i + 1;
        db := argv[i];
      } else {
        assert rest[1..] == argv[i + 1..];
      }
      i := i + 1;
    }
    r := Success(ServerConfig(host, port, db));
  }

  // ---------------------------------------------------------------------
  // Properties of the argument loop

  lemma NoArgumentsGivesDefaults(program: string)
    ensures Configure([]) == Success(Defaults)
    ensures Configure([program]) == Success(Defaults)
    ensures Defaults == ServerConfig("0.0.0.0", 8080, "postgresql://localhost:5432/pyracms")
  {
  }

  /** `argv[0]` is never examined. */
  lemma ProgramNameIgnored(a: string, b: string, rest: seq<string>)
    ensures Configure([a] + rest) == Configure([b] + rest)
  {
    assert ([a] + rest)[1..] == rest == ([b] + rest)[1..];
  }

  /** An argument that is not one of the three flags, where a flag could
      start, is skipped without error. */
  lemma UnrecognisedSkipped(arg: string, rest: seq<string>)
    requires !IsFlag(arg)
    ensures Assignments([arg] + rest) == Assignments(rest)
  {
    assert ([arg] + rest)[1..] == rest;
  }

  /** The element after a flag is its value even when it looks like a flag. */
  lemma ValueNeverReinterpreted(flag: string, value: string, rest: seq<string>)
    requires IsFlag(flag)
    ensures Assignments([flag, value] + rest) == [AssignmentFor(flag, value)] + Assignments(rest)
  {
    assert ([flag, value] + rest)[2..] == rest;
  }

  lemma HostThenPortExample()
    ensures Configure(["server", "--host", "--port"]) == Success(Defaults.(host := "--port"))
  {
    ValueNeverReinterpreted("--host", "--port", []);
    assert Args(["server", "--host", "--port"]) == ["--host", "--port"];
    assert ["--host", "--port"] == ["--host", "--port"] + [];
  }

  /** `args` is read to its end without a flag left waiting for a value. */
  predicate Complete(args: seq<string>)
    decreases |args|
  {
    if args == [] then true
    else if IsFlag(args[0]) then |args| >= 2 && Complete(args[2..])
    else Complete(args[1..])
  }

  /** Reading splits at the end of a complete prefix. */
  lemma {:induction false} AssignmentsAppend(xs: seq<string>, ys: seq<string>)
    requires Complete(xs)
    ensures Assignments(xs + ys) == Assignments(xs) + Assignments(ys)
    decreases |xs|
  {
    if xs == [] {
      assert xs + ys == ys;
    } else if IsFlag(xs[0]) {
      assert (xs + ys)[2..] == xs[2..] + ys;
      assert (xs + ys)[0] == xs[0] && (xs + ys)[1] == xs[1];
      AssignmentsAppend(xs[2..], ys);
    } else {
      assert (xs + ys)[1..] == xs[1..] + ys;
      AssignmentsAppend(xs[1..], ys);
    }
  }

  /** A flag given as the last argument, with no value after it, changes nothing. */
  lemma TrailingFlagIgnored(argv: seq<string>, flag: string)
    requires |argv| >= 1 && Complete(argv[1..])
    ensures Configure(argv + [flag]) == Configure(argv)
  {
    var xs := Args(argv);
    assert Args(argv + [flag]) == xs + [flag];
    AssignmentsAppend(xs, [flag]);
    assert Assignments([flag]) == [];
    assert Assignments(xs + [flag]) == Assignments(xs);
  }

  lemma {:induction false} AssignAppend(asg: seq<Assignment>, bs: seq<Assignment>, cfg: ServerConfig)
    ensures Assign(asg + bs, cfg)
         == if Assign(asg, cfg).Success? then Assign(bs, Assign(asg, cfg).value) else Assign(asg, cfg)
    decreases |asg|
  {
    if asg == [] {
      assert asg + bs == bs;
    } else {
      assert (asg + bs)[0] == asg[0];
      assert (asg + bs)[1..] == asg[1..] + bs;
      match asg[0]
      case SetHost(h) => AssignAppend(asg[1..], bs, cfg.(host := h));
      case SetDb(d) => AssignAppend(asg[1..], bs, cfg.(db := d));
      case SetPort(t) =>
        if StoI(t).Success? {
          AssignAppend(asg[1..], bs, cfg.(port := StoI(t).value));
        }
    }
  }

  /** A flag repeated at the end of a complete command line overrides every
      earlier occurrence: its value is the one the server gets. */
  lemma LastOccurrenceWins(argv: seq<string>, flag: string, value: string)
    requires |argv| >= 1 && Complete(argv[1..])
    requires IsFlag(flag)
    ensures Configure(argv).Failure? ==> Configure(argv + [flag, value]) == Configure(argv)
    ensures Configure(argv).Success? && flag == "--host" ==>
              Configure(argv + [flag, value]) == Success(Configure(argv).value.(host := value))
    ensures Configure(argv).Success? && flag == "--db" ==>
              Configure(argv + [flag, value]) == Success(Configure(argv).value.(db := value))
    ensures Configure(argv).Success? && flag == "--port" && StoI(value).Success? ==>
              Configure(argv + [flag, value]) == Success(Configure(argv).value.(port := StoI(value).value))
    ensures Configure(argv).Success? && flag == "--port" && StoI(value).Failure? ==>
              Configure(argv + [flag, value]) == Failure(UncaughtStoiError(value, StoI(value).error))
  {
    var xs := Args(argv);
    assert Args(argv + [flag, value]) == xs + [flag, value];
    AssignmentsAppend(xs, [flag, value]);
    ValueNeverReinterpreted(flag, value, []);
    var a := AssignmentFor(flag, value);
    assert [flag, value] + [] == [flag, value];
    assert Assignments([flag, value]) == [a];
    var prefix := Assignments(xs);
    assert Configure(argv + [flag, value]) == Assign(prefix + [a], Defaults);
    AssignAppend(prefix, [a], Defaults);
    if Configure(argv).Success? {
      AssignCons(a, [], Configure(argv).value);
      assert [a] + [] == [a];
    }
  }
}
