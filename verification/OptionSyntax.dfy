/**
 Command lines as getopt.c understands them in its default PERMUTE ordering.  `Parse` is the
 meaning of an argument list, which it reads once without moving anything; option strings and
 written command lines mean what they were written for.
 */
module OptionSyntax {
  import opened Wrappers

  datatype LongOption = LongOption(name: string, hasArg: int, hasFlag: bool, val: int)

  /** What one call hands back: the return code, pj_optarg and the matched long option. */
  datatype Outcome = Outcome(code: int, arg: Option<string>, index: int)

  datatype ArgMode = Unknown | NoArgument | OptionalArgument | RequiredArgument

  datatype Options = Options(short: string, long: Option<seq<LongOption>>)

  const END: Outcome := Outcome(-1, None, -1)

  predicate NonOption(e: string) {
    |e| == 0 || e[0] != '-' || |e| == 1
  }

  /** The `-W name` spelling is outside this model; so are the '-' and '+' orderings.
      A long option whose value is -1 could not be told from the end of the scan. */
  predicate PermuteMode(o: Options) {
    && (o.long.Some? ==> forall i :: 0 <= i < |o.long.value| ==> o.long.value[i].val != -1)
    && (|o.short| > 0 ==> o.short[0] != '-' && o.short[0] != '+')
    && forall i :: 0 <= i < |o.short| - 1 ==> !(o.short[i] == 'W' && o.short[i + 1] == ';')
  }

  // ---------------------------------------------------------------------------
  // Reference semantics on the original argument list
  // ---------------------------------------------------------------------------

  /** Position of the first `c` in `s`, or -1. */
  function Index(s: string, c: char): (r: int)
    ensures -1 <= r < |s|
    ensures r >= 0 ==> s[r] == c && c !in s[..r]
    ensures r == -1 ==> c !in s
  {
    if s == "" then -1
    else if s[0] == c then 0
    else
      var t := Index(s[1..], c);
      if t < 0 then -1 else t + 1
  }

  function ModeOf(short: string, c: char): ArgMode {
    var t := Index(short, c);
    if t < 0 || c == ':' then Unknown
    else if t + 1 < |short| && short[t + 1] == ':' then
      if t + 2 < |short| && short[t + 2] == ':' then OptionalArgument else RequiredArgument
    else NoArgument
  }

  function MissingArgument(short: string): Outcome {
    Outcome(if |short| > 0 && short[0] == ':' then ':' as int else '?' as int, None, -1)
  }

  const REJECTED: Outcome := Outcome('?' as int, None, -1)

  /** Outcomes of the option characters `chars`, and how many arguments they use up. */
  function Cluster(short: string, chars: string, next: Option<string>): (r: (seq<Outcome>, nat))
    requires chars != ""
    ensures 1 <= r.1 <= if next.Some? then 2 else 1
    ensures r.0 != []
  {
    var c, rest := chars[0], chars[1..];
    match ModeOf(short, c)
    case RequiredArgument =>
      if rest != "" then ([Outcome(c as int, Some(rest), -1)], 1)
      else if next.None? then ([MissingArgument(short)], 1)
      else ([Outcome(c as int, next, -1)], 2)
    case OptionalArgument =>
      ([Outcome(c as int, if rest != "" then Some(rest) else None, -1)], 1)
    case mode =>
      var first := if mode.Unknown? then REJECTED else Outcome(c as int, None, -1);
      if rest == "" then ([first], 1)
      else
        var more := Cluster(short, rest, next);
        ([first] + more.0, more.1)
  }

  datatype LongMatch = Found(index: nat) | Ambiguous | NotFound

  predicate Abbreviates(name: string, opt: LongOption) {
    name <= opt.name
  }

  /** A long name matches its exact spelling, else the one option it abbreviates. */
  ghost predicate IsLongMatch(long: seq<LongOption>, name: string, m: LongMatch) {
    match m
    case Found(i) =>
      && i < |long| && Abbreviates(name, long[i])
      && (|| (long[i].name == name && forall k :: 0 <= k < i ==> long[k].name != name)
          || (&& (forall k :: 0 <= k < |long| ==> long[k].name != name)
              && (forall k :: 0 <= k < |long| && k != i ==> !Abbreviates(name, long[k]))))
    case Ambiguous =>
      && (forall k :: 0 <= k < |long| ==> long[k].name != name)
      && (exists i, j :: 0 <= i < j < |long| && Abbreviates(name, long[i]) && Abbreviates(name, long[j]))
    case NotFound =>
      forall k :: 0 <= k < |long| ==> !Abbreviates(name, long[k])
  }

  /** Scan of the long option table from `i`, remembering the first abbreviation seen. */
  function FindLong(long: seq<LongOption>, name: string, i: nat, found: Option<nat>, ambiguous: bool): (m: LongMatch)
    requires i <= |long| && (found.Some? ==> found.value < i)
    ensures m.Found? ==> m.index < |long|
    decreases |long| - i
  {
    if i == |long| then
      if ambiguous then Ambiguous else if found.Some? then Found(found.value) else NotFound
    else if Abbreviates(name, long[i]) then
      if |name| == |long[i].name| then Found(i)
      else if found.None? then FindLong(long, name, i + 1, Some(i), ambiguous)
      else FindLong(long, name, i + 1, found, true)
    else FindLong(long, name, i + 1, found, ambiguous)
  }

  lemma {:induction false} FindLongIsLongMatch(long: seq<LongOption>, name: string, i: nat, found: Option<nat>, ambiguous: bool)
    requires i <= |long|
    requires forall k :: 0 <= k < i ==> long[k].name != name
    requires found.None? ==> forall k :: 0 <= k < i ==> !Abbreviates(name, long[k])
    requires found.Some? ==> found.value < i && Abbreviates(name, long[found.value])
    requires found.Some? && !ambiguous ==> forall k :: 0 <= k < i && k != found.value ==> !Abbreviates(name, long[k])
    requires ambiguous ==> found.Some? && exists k :: 0 <= k < i && k != found.value && Abbreviates(name, long[k])
    ensures IsLongMatch(long, name, FindLong(long, name, i, found, ambiguous))
    decreases |long| - i
  {
    if i == |long| {
      if ambiguous {
        var k :| 0 <= k < i && k != found.value && Abbreviates(name, long[k]);
        var lo, hi := if k < found.value then k else found.value, if k < found.value then found.value else k;
        assert 0 <= lo < hi < |long| && Abbreviates(name, long[lo]) && Abbreviates(name, long[hi]);
      }
    } else if Abbreviates(name, long[i]) {
      if |name| == |long[i].name| {
        assert long[i].name == name;
      } else if found.None? {
        FindLongIsLongMatch(long, name, i + 1, Some(i), ambiguous);
      } else {
        FindLongIsLongMatch(long, name, i + 1, found, true);
      }
    } else {
      FindLongIsLongMatch(long, name, i + 1, found, ambiguous);
    }
  }

  /** The outcome of `--body`, and how many arguments it uses up. */
  function LongElement(short: string, long: seq<LongOption>, body: string, next: Option<string>): (r: (Outcome, nat))
    ensures 1 <= r.1 <= if next.Some? then 2 else 1
  {
    var eq := Index(body, '=');
    var name := if eq < 0 then body else body[..eq];
    match FindLong(long, name, 0, None, false)
    case Ambiguous => (REJECTED, 1)
    case NotFound => (REJECTED, 1)
    case Found(i) =>
      var code := if long[i].hasFlag then 0 else long[i].val;
      if eq >= 0 then
        if long[i].hasArg != 0 then (Outcome(code, Some(body[eq + 1..]), i), 1) else (REJECTED, 1)
      else if long[i].hasArg == 1 then
        if next.Some? then (Outcome(code, next, i), 2) else (MissingArgument(short), 1)
      else (Outcome(code, None, i), 1)
  }

  predicate IsLong(o: Options, e: string) {
    o.long.Some? && |e| > 1 && e[1] == '-'
  }

  function Element(o: Options, e: string, next: Option<string>): (r: (seq<Outcome>, nat))
    requires !NonOption(e) && e != "--"
    ensures 1 <= r.1 <= if next.Some? then 2 else 1
  {
    if IsLong(o, e) then
      var r := LongElement(o.short, o.long.value, e[2..], next);
      ([r.0], r.1)
    else Cluster(o.short, e[1..], next)
  }

  /** Outcomes, option elements with their arguments, and the remaining operands. */
  datatype Parsed = Parsed(outcomes: seq<Outcome>, options: seq<string>, operands: seq<string>)

  function Second(args: seq<string>): Option<string> {
    if |args| > 1 then Some(args[1]) else None
  }

  function Parse(o: Options, args: seq<string>): Parsed
    decreases |args|
  {
    if args == [] then Parsed([], [], [])
    else if args[0] == "--" then Parsed([], args[..1], args[1..])
    else if NonOption(args[0]) then
      var p := Parse(o, args[1..]);
      p.(operands := [args[0]] + p.operands)
    else
      var r := Element(o, args[0], Second(args));
      Follow(r.0, args[..r.1], Parse(o, args[r.1..]))
  }

  function Follow(outcomes: seq<Outcome>, used: seq<string>, p: Parsed): Parsed {
    Parsed(outcomes + p.outcomes, used + p.options, p.operands)
  }

  /** `Parse` entered in the middle of a short-option cluster. */
  function ParseFrom(o: Options, chars: string, args: seq<string>): Parsed
    requires chars != "" ==> args != []
  {
    if chars == "" then Parse(o, args)
    else
      var r := Cluster(o.short, chars, Second(args));
      Follow(r.0, args[..r.1], Parse(o, args[r.1..]))
  }

  /** What is left of `whole` after these outcomes, options and operands were produced. */
  predicate Leaves(whole: Parsed, outcomes: seq<Outcome>, options: seq<string>, operands: seq<string>, rest: Parsed) {
    && whole.outcomes == outcomes + rest.outcomes
    && whole.options == options + rest.options
    && whole.operands == operands + rest.operands
  }

  // ---------------------------------------------------------------------------
  // Facts about the reference semantics
  // ---------------------------------------------------------------------------

  /** Options and operands are together a permutation of the arguments. */
  lemma {:induction false} ParsePermutes(o: Options, args: seq<string>)
    ensures multiset(Parse(o, args).options) + multiset(Parse(o, args).operands) == multiset(args)
    decreases |args|
  {
    if args == [] {
    } else if args[0] == "--" {
      assert args == args[..1] + args[1..];
    } else if NonOption(args[0]) {
      ParsePermutes(o, args[1..]);
      assert args == [args[0]] + args[1..];
    } else {
      var w := Element(o, args[0], Second(args)).1;
      ParsePermutes(o, args[w..]);
      assert args == args[..w] + args[w..];
    }
  }

  predicate Subsequence(s: seq<string>, t: seq<string>)
    decreases |t|
  {
    s == [] || (t != [] && ((s[0] == t[0] && Subsequence(s[1..], t[1..])) || Subsequence(s, t[1..])))
  }

  lemma {:induction false} SubsequenceSkips(s: seq<string>, u: seq<string>, t: seq<string>)
    requires Subsequence(s, t)
    ensures Subsequence(s, u + t)
    decreases |u|
  {
    if u == [] {
      assert u + t == t;
    } else {
      SubsequenceSkips(s, u[1..], t);
      assert (u + t)[1..] == u[1..] + t;
    }
  }

  lemma {:induction false} SubsequenceKeeps(u: seq<string>, s: seq<string>, t: seq<string>)
    requires Subsequence(s, t)
    ensures Subsequence(u + s, u + t)
    decreases |u|
  {
    if u == [] {
      assert u + s == s && u + t == t;
    } else {
      SubsequenceKeeps(u[1..], s, t);
      assert (u + s)[1..] == u[1..] + s && (u + t)[1..] == u[1..] + t;
    }
  }

  /** Neither the options nor the operands are reordered among themselves. */
  lemma {:induction false} ParseKeepsOrder(o: Options, args: seq<string>)
    ensures Subsequence(Parse(o, args).options, args)
    ensures Subsequence(Parse(o, args).operands, args)
    decreases |args|
  {
    if args == [] {
    } else if args[0] == "--" {
      SubsequenceKeeps(args[..1], [], args[1..]);
      assert args[..1] + [] == args[..1];
      assert args == args[..1] + args[1..];
      SubsequenceKeeps(args[1..], [], []);
      assert args[1..] + [] == args[1..];
      SubsequenceSkips(args[1..], args[..1], args[1..]);
    } else if NonOption(args[0]) {
      ParseKeepsOrder(o, args[1..]);
      var p := Parse(o, args[1..]);
      assert args == args[..1] + args[1..] && [args[0]] == args[..1];
      SubsequenceKeeps(args[..1], p.operands, args[1..]);
      SubsequenceSkips(p.options, args[..1], args[1..]);
    } else {
      var w := Element(o, args[0], Second(args)).1;
      ParseKeepsOrder(o, args[w..]);
      var p := Parse(o, args[w..]);
      assert args == args[..w] + args[w..];
      SubsequenceKeeps(args[..w], p.options, args[w..]);
      SubsequenceSkips(p.operands, args[..w], args[w..]);
    }
  }

  /** Skipped non-options go to the operands one at a time. */
  lemma ParseSkips(o: Options, args: seq<string>)
    requires args != [] && NonOption(args[0])
    ensures Leaves(Parse(o, args), [], [], args[..1], Parse(o, args[1..]))
  {
    assert args[0] != "--";
    assert args[..1] == [args[0]];
  }

  /** The next outcome of a cluster, the characters left in it, and the arguments used up. */
  function ShortStep(short: string, chars: string, next: Option<string>): (Outcome, string, int)
    requires chars != ""
  {
    var c, rest := chars[0], chars[1..];
    match ModeOf(short, c)
    case RequiredArgument =>
      if rest != "" then (Outcome(c as int, Some(rest), -1), "", 1)
      else if next.None? then (MissingArgument(short), "", 1)
      else (Outcome(c as int, next, -1), "", 2)
    case OptionalArgument =>
      (Outcome(c as int, if rest != "" then Some(rest) else None, -1), "", 1)
    case mode =>
      (if mode.Unknown? then REJECTED else Outcome(c as int, None, -1), rest, if rest == "" then 1 else 0)
  }

  lemma ShortStepFollows(o: Options, chars: string, rest: seq<string>)
    requires chars != "" && rest != []
    ensures var (r, left, w) := ShortStep(o.short, chars, Second(rest));
            && 0 <= w <= |rest| && (left != "" ==> w == 0)
            && ParseFrom(o, chars, rest) == Follow([r], rest[..w], ParseFrom(o, left, rest[w..]))
  {
    var (r, left, w) := ShortStep(o.short, chars, Second(rest));
    if left != "" {
      assert rest[w..] == rest;
      var more := Cluster(o.short, left, Second(rest));
      assert [r] + more.0 + Parse(o, rest[more.1..]).outcomes == [r] + (more.0 + Parse(o, rest[more.1..]).outcomes);
      assert rest[..w] + (rest[..more.1] + Parse(o, rest[more.1..]).options) == rest[..more.1] + Parse(o, rest[more.1..]).options;
    }
  }

  lemma LongStepFollows(o: Options, rest: seq<string>)
    requires rest != [] && !NonOption(rest[0]) && rest[0] != "--" && IsLong(o, rest[0])
    ensures var (r, w) := LongElement(o.short, o.long.value, rest[0][2..], Second(rest));
            && 1 <= w <= |rest|
            && ParseFrom(o, "", rest) == Follow([r], rest[..w], ParseFrom(o, "", rest[w..]))
  {
    hide LongElement;
  }

  lemma LeavesStep(whole: Parsed, outcomes: seq<Outcome>, options: seq<string>, operands: seq<string>,
                   r: Outcome, used: seq<string>, p: Parsed)
    requires Leaves(whole, outcomes, options, operands, Follow([r], used, p))
    ensures Leaves(whole, outcomes + [r], options + used, operands, p)
  {
    assert outcomes + ([r] + p.outcomes) == outcomes + [r] + p.outcomes;
    assert options + (used + p.options) == options + used + p.options;
  }

  // ---------------------------------------------------------------------------
  // What option strings and command lines mean
  // ---------------------------------------------------------------------------

  /** An option letter and what argument it takes. */
  datatype Decl = Decl(letter: char, mode: ArgMode)

  function SpellDecl(d: Decl): string {
    [d.letter] + (if d.mode == RequiredArgument then ":" else if d.mode == OptionalArgument then "::" else "")
  }

  function SpellDecls(decls: seq<Decl>): string {
    if decls == [] then "" else SpellDecl(decls[0]) + SpellDecls(decls[1..])
  }

  /** The option string; a colon in front asks for missing arguments to be told from unknown options. */
  function OptString(decls: seq<Decl>, colon: bool): string { (if colon then ":" else "") + SpellDecls(decls) }

  predicate GoodDecls(decls: seq<Decl>) {
    && (forall i :: 0 <= i < |decls| ==> decls[i].letter != ':' && decls[i].mode != Unknown)
    && (forall i, j :: 0 <= i < j < |decls| ==> decls[i].letter != decls[j].letter)
  }

  /** What was declared for a letter. */
  function Declared(decls: seq<Decl>, c: char): (r: ArgMode)
    ensures r == Unknown || exists i :: 0 <= i < |decls| && decls[i] == Decl(c, r)
  {
    if decls == [] then Unknown
    else if decls[0].letter == c then
      assert decls[0] == Decl(c, decls[0].mode);
      decls[0].mode
    else
      var r := Declared(decls[1..], c);
      assert forall i :: 0 <= i < |decls| - 1 ==> decls[1..][i] == decls[i + 1];
      r
  }

  lemma {:induction false} DeclaredIs(decls: seq<Decl>, i: nat)
    requires GoodDecls(decls) && i < |decls|
    ensures Declared(decls, decls[i].letter) == decls[i].mode
    decreases |decls|
  {
    if i > 0 {
      DeclaredIs(decls[1..], i - 1);
    }
  }

  lemma {:induction false} UndeclaredIs(decls: seq<Decl>, c: char)
    requires forall i :: 0 <= i < |decls| ==> decls[i].letter != c
    ensures Declared(decls, c) == Unknown
  {
  }

  lemma {:induction false} IndexSkips(s: string, t: string, c: char)
    requires c !in s
    ensures Index(s + t, c) == if Index(t, c) < 0 then -1 else |s| + Index(t, c)
    decreases |s|
  {
    if s == "" {
      assert s + t == t;
    } else {
      assert (s + t)[1..] == s[1..] + t;
      IndexSkips(s[1..], t, c);
    }
  }

  lemma {:induction false} ModeSkips(s: string, t: string, c: char)
    requires c !in s
    ensures ModeOf(s + t, c) == ModeOf(t, c)
  {
    hide Index;
    IndexSkips(s, t, c);
    var k := Index(t, c);
    assert forall i :: 0 <= i < |t| ==> (s + t)[|s| + i] == t[i];
  }

  lemma {:induction false} SpelledStart(decls: seq<Decl>)
    requires GoodDecls(decls)
    ensures SpellDecls(decls) != "" ==> SpellDecls(decls)[0] != ':'
  {
  }

  lemma {:induction false} ColonUnknown(short: string)
    ensures ModeOf(short, ':') == Unknown
  {
  }

  lemma {:induction false} NothingDeclared(c: char)
    ensures ModeOf("", c) == Unknown
  {
  }

  lemma {:induction false} FirstDeclared(d: Decl, rest: string)
    requires d.letter != ':' && d.mode != Unknown && (rest != "" ==> rest[0] != ':')
    ensures ModeOf(SpellDecl(d) + rest, d.letter) == d.mode
  {
    var s := SpellDecl(d) + rest;
    assert s[0] == d.letter;
    assert rest != "" ==> s[|SpellDecl(d)|] == rest[0];
  }

  /** An option string means what was declared, for every letter. */
  lemma {:induction false} ModeIsDeclared(decls: seq<Decl>, colon: bool, c: char)
    requires GoodDecls(decls)
    ensures ModeOf(OptString(decls, colon), c) == Declared(decls, c)
    decreases |decls|, colon
  {
    hide ModeOf;
    if colon {
      ModeIsDeclared(decls, false, c);
      assert OptString(decls, false) == SpellDecls(decls);
      if c != ':' {
        ModeSkips(":", SpellDecls(decls), c);
      } else {
        UndeclaredIs(decls, c);
        ColonUnknown(OptString(decls, true));
      }
    } else if decls == [] {
      assert OptString(decls, false) == "";
      NothingDeclared(c);
    } else {
      var d, rest := SpellDecl(decls[0]), SpellDecls(decls[1..]);
      assert OptString(decls, false) == d + rest && OptString(decls[1..], false) == rest;
      if c == ':' {
        UndeclaredIs(decls, c);
        ColonUnknown(OptString(decls, false));
      } else if c == decls[0].letter {
        SpelledStart(decls[1..]);
        FirstDeclared(decls[0], rest);
      } else {
        ModeIsDeclared(decls[1..], false, c);
        ModeSkips(d, rest, c);
      }
    }
  }

  /**
   Part of a command line: flags and one more option in one element, with an argument in the same
   element or in the next; a long option by some name; or an operand.
   */
  datatype Item =
    | Short(flags: string, c: char, arg: Option<string>, apart: bool)
    | Long(name: string, index: nat, arg: Option<string>, apart: bool)
    | Operand(text: string)

  function Text(arg: Option<string>): string { if arg.Some? then arg.value else "" }

  /** The elements an item is written as. */
  function Written(it: Item): (r: seq<string>)
    ensures 1 <= |r| <= 2
  {
    match it
    case Short(flags, c, arg, apart) =>
      if apart then ["-" + flags + [c], Text(arg)] else ["-" + flags + [c] + Text(arg)]
    case Long(name, _, arg, apart) =>
      if arg.None? then ["--" + name] else if apart then ["--" + name, Text(arg)] else ["--" + name + "=" + Text(arg)]
    case Operand(text) => [text]
  }

  function AllWritten(items: seq<Item>): seq<string> {
    if items == [] then [] else Written(items[0]) + AllWritten(items[1..])
  }

  /** What an item tells the caller: each flag, and the option with its argument. */
  function Told(o: Options, it: Item): seq<Outcome> {
    match it
    case Short(flags, c, arg, _) =>
      seq(|flags|, i requires 0 <= i < |flags| => Outcome(flags[i] as int, None, -1)) + [Outcome(c as int, arg, -1)]
    case Long(_, index, arg, _) =>
      if o.long.Some? && index < |o.long.value| then
        [Outcome(if o.long.value[index].hasFlag then 0 else o.long.value[index].val, arg, index)]
      else []
    case Operand(_) => []
  }

  /** What all items come to: outcomes, option elements and operands, each in order. */
  function Meaning(o: Options, items: seq<Item>): Parsed {
    if items == [] then Parsed([], [], [])
    else
      var it, p := items[0], Meaning(o, items[1..]);
      if it.Operand? then p.(operands := [it.text] + p.operands) else Follow(Told(o, it), Written(it), p)
  }

  /** An argument is given as the option takes it: none, or in the same element if it may be left out. */
  predicate Takes(mode: ArgMode, arg: Option<string>, apart: bool) {
    match mode
    case Unknown => false
    case NoArgument => arg.None? && !apart
    case OptionalArgument => !apart && (arg.Some? ==> arg.value != "")
    case RequiredArgument => arg.Some? && (!apart ==> arg.value != "")
  }

  /** Options with argument 0 take none, those with 1 need one, all others may have one behind an equals sign. */
  predicate TakesLong(hasArg: int, arg: Option<string>, apart: bool) {
    if hasArg == 0 then arg.None? && !apart
    else if hasArg == 1 then arg.Some?
    else !apart
  }

  ghost predicate GoodItem(o: Options, decls: seq<Decl>, it: Item) {
    match it
    case Short(flags, c, arg, apart) =>
      && (flags + [c])[0] != '-' && (forall i :: 0 <= i < |flags| ==> Declared(decls, flags[i]) == NoArgument)
      && Takes(Declared(decls, c), arg, apart)
    case Long(name, index, arg, apart) =>
      && name != "" && '=' !in name && o.long.Some? && IsLongMatch(o.long.value, name, Found(index))
      && TakesLong(o.long.value[index].hasArg, arg, apart)
    case Operand(text) => NonOption(text)
  }

  /** The options are declared this way, and the arguments are these items, written out. */
  ghost predicate CommandLine(o: Options, decls: seq<Decl>, colon: bool, items: seq<Item>, args: seq<string>) {
    && GoodDecls(decls) && o.short == OptString(decls, colon)
    && (forall i :: 0 <= i < |items| ==> GoodItem(o, decls, items[i]))
    && args == AllWritten(items)
  }

  /** The last option of an element, with the rest of the element behind it. */
  lemma {:induction false} LastMeans(short: string, c: char, arg: Option<string>, apart: bool, next: Option<string>)
    requires Takes(ModeOf(short, c), arg, apart) && (apart ==> next == arg)
    ensures Cluster(short, [c] + (if apart then "" else Text(arg)), next)
            == ([Outcome(c as int, arg, -1)], if apart then 2 else 1)
  {
    hide ModeOf;
    var rest := if apart then "" else Text(arg);
    var chars := [c] + rest;
    assert chars[0] == c && chars[1..] == rest;
  }

  /** A flag in front of more options. */
  lemma {:induction false} FlagMeans(short: string, f: char, rest: string, next: Option<string>)
    requires ModeOf(short, f) == NoArgument && rest != ""
    ensures var more := Cluster(short, rest, next);
            Cluster(short, [f] + rest, next) == ([Outcome(f as int, None, -1)] + more.0, more.1)
  {
    hide ModeOf;
    var chars := [f] + rest;
    assert chars[0] == f && chars[1..] == rest;
  }

  lemma {:induction false} ToldNext(o: Options, flags: string, c: char, arg: Option<string>, apart: bool)
    ensures flags == "" ==> Told(o, Short(flags, c, arg, apart)) == [Outcome(c as int, arg, -1)]
    ensures flags != "" ==>
              Told(o, Short(flags, c, arg, apart))
              == [Outcome(flags[0] as int, None, -1)] + Told(o, Short(flags[1..], c, arg, apart))
  {
  }

  lemma {:induction false} ClusterMeans(o: Options, decls: seq<Decl>, colon: bool, flags: string, c: char,
                                        arg: Option<string>, apart: bool, next: Option<string>)
    requires GoodDecls(decls) && o.short == OptString(decls, colon) && Takes(Declared(decls, c), arg, apart)
    requires forall i :: 0 <= i < |flags| ==> Declared(decls, flags[i]) == NoArgument
    requires apart ==> next == arg
    ensures Cluster(o.short, flags + [c] + (if apart then "" else Text(arg)), next)
            == (Told(o, Short(flags, c, arg, apart)), if apart then 2 else 1)
    decreases |flags|
  {
    hide ModeOf, OptString, GoodDecls, Cluster, Told, Takes, Declared, Text;
    var rest := if apart then "" else Text(arg);
    ToldNext(o, flags, c, arg, apart);
    if flags == "" {
      assert flags + [c] + rest == [c] + rest;
      ModeIsDeclared(decls, colon, c);
      LastMeans(o.short, c, arg, apart, next);
    } else {
      var more := flags[1..] + [c] + rest;
      assert flags + [c] + rest == [flags[0]] + more;
      ModeIsDeclared(decls, colon, flags[0]);
      ClusterMeans(o, decls, colon, flags[1..], c, arg, apart, next);
      FlagMeans(o.short, flags[0], more, next);
    }
  }

  lemma {:induction false} LongMatchUnique(long: seq<LongOption>, name: string, i: nat, m: LongMatch)
    requires IsLongMatch(long, name, Found(i)) && IsLongMatch(long, name, m)
    ensures m == Found(i)
  {
  }

  /** A long element in parts: its name, and what stands behind an equals sign. */
  lemma {:induction false} BodyParts(name: string, arg: Option<string>)
    requires '=' !in name
    ensures arg.None? ==> Index(name, '=') == -1
    ensures arg.Some? ==>
              var body := name + "=" + arg.value;
              Index(body, '=') == |name| && body[..|name|] == name && body[|name| + 1..] == arg.value
  {
    hide Index;
    if arg.Some? {
      var tail := "=" + arg.value;
      IndexSkips(name, tail, '=');
      EqualsAt(tail);
      assert name + tail == name + "=" + arg.value;
      assert (name + tail)[..|name|] == name && (name + tail)[|name| + 1..] == arg.value;
    } else {
      IndexSkips(name, "", '=');
      EqualsAt("");
      assert name + "" == name;
    }
  }

  lemma {:induction false} FindsMatch(long: seq<LongOption>, name: string, i: nat)
    requires IsLongMatch(long, name, Found(i))
    ensures i < |long| && FindLong(long, name, 0, None, false) == Found(i)
  {
    hide IsLongMatch, FindLong;
    FindLongIsLongMatch(long, name, 0, None, false);
    FoundInside(long, name, i);
    LongMatchUnique(long, name, i, FindLong(long, name, 0, None, false));
  }

  lemma {:induction false} LongMeans(o: Options, it: Item, next: Option<string>)
    requires it.Long? && it.name != "" && '=' !in it.name && o.long.Some?
    requires IsLongMatch(o.long.value, it.name, Found(it.index))
    requires TakesLong(o.long.value[it.index].hasArg, it.arg, it.apart) && (it.apart ==> next == it.arg)
    ensures var body := if it.arg.Some? && !it.apart then it.name + "=" + it.arg.value else it.name;
            LongElement(o.short, o.long.value, body, next) == (Told(o, it)[0], if it.apart then 2 else 1)
    ensures |Told(o, it)| == 1
  {
    hide IsLongMatch, FindLong, Index;
    FindsMatch(o.long.value, it.name, it.index);
    BodyParts(it.name, None);
    BodyParts(it.name, it.arg);
  }

  lemma {:induction false} FoundInside(long: seq<LongOption>, name: string, i: nat)
    requires IsLongMatch(long, name, Found(i))
    ensures i < |long|
  {
  }

  lemma {:induction false} EqualsAt(tail: string)
    requires tail == "" || tail[0] == '='
    ensures Index(tail, '=') == if tail == "" then -1 else 0
  {
  }

  /** An item in front of other arguments: it means what it was written for, and uses up its own elements. */
  lemma {:induction false} ItemMeans(o: Options, decls: seq<Decl>, colon: bool, it: Item, rest: seq<string>)
    requires GoodDecls(decls) && o.short == OptString(decls, colon) && GoodItem(o, decls, it)
    ensures Parse(o, Written(it) + rest)
            == if it.Operand? then Parse(o, rest).(operands := [it.text] + Parse(o, rest).operands)
               else Follow(Told(o, it), Written(it), Parse(o, rest))
  {
    var args := Written(it) + rest;
    if it.Operand? {
      assert args[1..] == rest;
    } else {
      OptionMeans(o, decls, colon, it, rest);
      var w := |Written(it)|;
      assert args[..w] == Written(it) && args[w..] == rest;
    }
  }

  lemma {:induction false} OptionMeans(o: Options, decls: seq<Decl>, colon: bool, it: Item, rest: seq<string>)
    requires GoodDecls(decls) && o.short == OptString(decls, colon) && GoodItem(o, decls, it) && !it.Operand?
    ensures var args := Written(it) + rest;
            && !NonOption(args[0]) && args[0] != "--"
            && Element(o, args[0], Second(args)) == (Told(o, it), |Written(it)|)
  {
    hide GoodDecls, OptString, Cluster, LongElement, IsLongMatch, Told;
    var args := Written(it) + rest;
    var e := args[0];
    match it {
      case Short(flags, c, arg, apart) =>
        var chars := flags + [c] + if apart then "" else Text(arg);
        assert e == "-" + chars && e[1..] == chars && e[1] == (flags + [c])[0];
        assert Second(args) == arg || !apart;
        ClusterMeans(o, decls, colon, flags, c, arg, apart, Second(args));
      case Long(name, index, arg, apart) =>
        var body := if arg.Some? && !apart then name + "=" + arg.value else name;
        assert e == "--" + body && e[2..] == body;
        LongMeans(o, it, Second(args));
        assert Told(o, it) == [Told(o, it)[0]];
    }
  }

  lemma {:induction false} ItemsMean(o: Options, decls: seq<Decl>, colon: bool, items: seq<Item>, rest: seq<string>)
    requires CommandLine(o, decls, colon, items, AllWritten(items))
    ensures var p, q := Meaning(o, items), Parse(o, rest);
            Parse(o, AllWritten(items) + rest)
            == Parsed(p.outcomes + q.outcomes, p.options + q.options, p.operands + q.operands)
    decreases |items|
  {
    hide GoodDecls, OptString, GoodItem, Parse, Told, Written;
    var q := Parse(o, rest);
    if items == [] {
      assert AllWritten(items) + rest == rest;
      assert q.outcomes == [] + q.outcomes && q.options == [] + q.options && q.operands == [] + q.operands;
    } else {
      var it, p := items[0], Meaning(o, items[1..]);
      var more := AllWritten(items[1..]) + rest;
      assert AllWritten(items) + rest == Written(it) + more;
      ItemMeans(o, decls, colon, it, more);
      ItemsMean(o, decls, colon, items[1..], rest);
      if it.Operand? {
        assert [it.text] + (p.operands + q.operands) == [it.text] + p.operands + q.operands;
      } else {
        assert Told(o, it) + (p.outcomes + q.outcomes) == Told(o, it) + p.outcomes + q.outcomes;
        assert Written(it) + (p.options + q.options) == Written(it) + p.options + q.options;
      }
    }
  }

  /** A command line means what it was written for, and everything behind two dashes is an operand. */
  lemma {:induction false} CommandLineMeans(o: Options, decls: seq<Decl>, colon: bool, items: seq<Item>,
                                            rest: seq<string>)
    requires CommandLine(o, decls, colon, items, AllWritten(items))
    ensures Parse(o, AllWritten(items)) == Meaning(o, items)
    ensures var p := Meaning(o, items);
            Parse(o, AllWritten(items) + ["--"] + rest) == Parsed(p.outcomes, p.options + ["--"], p.operands + rest)
  {
    hide CommandLine, Meaning, AllWritten;
    var p, none: seq<string> := Meaning(o, items), [];
    ItemsMean(o, decls, colon, items, none);
    assert AllWritten(items) + none == AllWritten(items);
    assert p.outcomes + [] == p.outcomes && p.options + [] == p.options && p.operands + [] == p.operands;
    var tail := ["--"] + rest;
    ItemsMean(o, decls, colon, items, tail);
    assert AllWritten(items) + ["--"] + rest == AllWritten(items) + tail;
    assert tail[..1] == ["--"] && tail[1..] == rest;
  }

  /**
   What goes wrong: an unknown letter is told as such and skipped; a missing argument at the end of
   the command line is told with a colon if the option string starts with one.
   */
  lemma {:induction false} Complaints(o: Options, decls: seq<Decl>, colon: bool, c: char, rest: seq<string>)
    requires GoodDecls(decls) && o.short == OptString(decls, colon) && c != '-'
    ensures Declared(decls, c) == Unknown ==>
              Parse(o, [['-', c]] + rest) == Follow([Outcome('?' as int, None, -1)], [['-', c]], Parse(o, rest))
    ensures Declared(decls, c) == RequiredArgument ==>
              Parse(o, [['-', c]])
              == Parsed([Outcome(if colon then ':' as int else '?' as int, None, -1)], [['-', c]], [])
  {
    hide ModeOf;
    var args := [['-', c]] + rest;
    assert args[0][1..] == [c] && [c][1..] == "" && args[..1] == [['-', c]] && args[1..] == rest;
    ModeIsDeclared(decls, colon, c);
    var one := [['-', c]];
    assert one[..1] == one && one[1..] == [] && one[0][1..] == [c];
    ColonIs(decls, colon);
  }

  lemma {:induction false} ColonIs(decls: seq<Decl>, colon: bool)
    requires GoodDecls(decls)
    ensures |OptString(decls, colon)| > 0 && OptString(decls, colon)[0] == ':' <==> colon
  {
    SpelledStart(decls);
  }

  /** Long options: an unknown or ambiguous name, or an argument that is not wanted, is told as such. */
  lemma {:induction false} LongComplaints(o: Options, name: string, arg: string, m: LongMatch, rest: seq<string>)
    requires o.long.Some? && name != "" && '=' !in name && IsLongMatch(o.long.value, name, m)
    requires m.Found? ==> o.long.value[m.index].hasArg == 0
    ensures Parse(o, ["--" + name + "=" + arg] + rest)
            == Follow([Outcome('?' as int, None, -1)], ["--" + name + "=" + arg], Parse(o, rest))
  {
    hide IsLongMatch, FindLong, Index;
    var e, body, long := "--" + name + "=" + arg, name + "=" + arg, o.long.value;
    assert e[2..] == body && e != "--";
    FindLongIsLongMatch(long, name, 0, None, false);
    SameMatch(long, name, m, FindLong(long, name, 0, None, false));
    BodyParts(name, Some(arg));
    var args := [e] + rest;
    assert args[..1] == [e] && args[1..] == rest;
  }

  lemma {:induction false} SameMatch(long: seq<LongOption>, name: string, m: LongMatch, m': LongMatch)
    requires IsLongMatch(long, name, m) && IsLongMatch(long, name, m')
    ensures m == m'
  {
    if m.Found? {
      LongMatchUnique(long, name, m.index, m');
    } else if m'.Found? {
      LongMatchUnique(long, name, m'.index, m);
    } else if m.Ambiguous? {
      assert exists i :: 0 <= i < |long| && Abbreviates(name, long[i]);
    } else {
      assert forall k :: 0 <= k < |long| ==> !Abbreviates(name, long[k]);
    }
  }

  lemma {:induction false} CommandLineIs(o: Options, decls: seq<Decl>, colon: bool, items: seq<Item>,
                                         args: seq<string>)
    requires CommandLine(o, decls, colon, items, args)
    ensures Parse(o, args) == Meaning(o, items)
  {
    hide Parse, Meaning;
    CommandLineMeans(o, decls, colon, items, []);
  }
}
