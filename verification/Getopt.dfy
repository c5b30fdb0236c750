/**
 The argument scanner of getopt.c in its default PERMUTE ordering: the in-place exchange of two
 adjacent argv segments, the scan that skips non-options, and the decoding of short and long
 options, against the meaning of the original argument list.
 */
module Getopt {
  import opened OptionSyntax
  import opened Wrappers

  // ---------------------------------------------------------------------------
  // Exchange of adjacent segments
  // ---------------------------------------------------------------------------

  /** Where the element that ends at `i` comes from when [b,m) and [m,t) are exchanged. */
  function RotateFrom(b: nat, m: nat, t: nat, i: nat): (k: nat)
    requires b <= m <= t
    ensures i < t ==> k < t
    ensures i >= t ==> k == i
  {
    if i < b || i >= t then i else if i < b + (t - m) then i + (m - b) else i - (t - m)
  }

  /** `s` with its segments [b,m) and [m,t) exchanged. */
  function Rotate<T>(s: seq<T>, b: nat, m: nat, t: nat): (r: seq<T>)
    requires b <= m <= t <= |s|
  {
    seq(|s|, i requires 0 <= i < |s| => s[RotateFrom(b, m, t, i)])
  }

  /** Where the element at `x` comes from when the blocks at `i` and `j` are exchanged. */
  function SwapFrom(i: nat, j: nat, len: nat, x: nat): (k: nat)
    requires i + len <= j
  {
    if i <= x < i + len then x + (j - i) else if j <= x < j + len then x - (j - i) else x
  }

  /** `s` with the equally long blocks at `i` and `j` exchanged. */
  function Swapped<T>(s: seq<T>, i: nat, j: nat, len: nat): seq<T>
    requires i + len <= j && j + len <= |s|
  {
    seq(|s|, x requires 0 <= x < |s| => s[SwapFrom(i, j, len, x)])
  }

  lemma RotateShortBottom<T>(s: seq<T>, b: nat, m: nat, t: nat)
    requires b <= m <= t <= |s| && m - b < t - m
    ensures var len := m - b;
            Rotate(Swapped(s, b, t - len, len), b, m, t - len) == Rotate(s, b, m, t)
  {
  }

  lemma RotateShortTop<T>(s: seq<T>, b: nat, m: nat, t: nat)
    requires b <= m <= t <= |s| && t - m <= m - b
    ensures var len := t - m;
            Rotate(Swapped(s, b, m, len), b + len, m, t) == Rotate(s, b, m, t)
  {
  }

  method SwapBlocks<T>(a: array<T>, i: nat, j: nat, len: nat)
    requires i + len <= j && j + len <= a.Length
    modifies a
    ensures a[..] == Swapped(old(a[..]), i, j, len)
  {
    ghost var was := a[..];
    for k := 0 to len
      invariant forall x :: i <= x < i + k ==> a[x] == was[x + (j - i)]
      invariant forall x :: j <= x < j + k ==> a[x] == was[x - (j - i)]
      invariant forall x :: 0 <= x < a.Length && !(i <= x < i + k) && !(j <= x < j + k) ==> a[x] == was[x]
    {
      var tem := a[i + k];
      a[i + k] := a[j + k];
      a[j + k] := tem;
    }
    assert a[..] == Swapped(was, i, j, len);
  }

  /** The bottom segment is the short one: it changes places with the far end of the top one. */
  method SwapBottom<T>(a: array<T>, b: nat, m: nat, t: nat)
    requires b < m < t <= a.Length && m - b < t - m
    modifies a
    ensures Rotate(a[..], b, m, t - (m - b)) == Rotate(old(a[..]), b, m, t)
  {
    hide Rotate, Swapped;
    RotateShortBottom(a[..], b, m, t);
    SwapBlocks(a, b, t - (m - b), m - b);
  }

  /** The top segment is the short one: it changes places with the near end of the bottom one. */
  method SwapTop<T>(a: array<T>, b: nat, m: nat, t: nat)
    requires b < m < t <= a.Length && t - m <= m - b
    modifies a
    ensures Rotate(a[..], b + (t - m), m, t) == Rotate(old(a[..]), b, m, t)
  {
    hide Rotate, Swapped;
    RotateShortTop(a[..], b, m, t);
    SwapBlocks(a, b, m, t - m);
  }

  method RotateInPlace<T>(a: array<T>, b: nat, m: nat, t: nat)
    requires b <= m <= t <= a.Length
    modifies a
    ensures a[..] == Rotate(old(a[..]), b, m, t)
  {
    var bottom: nat, top: nat := b, t;
    ghost var target := Rotate(a[..], b, m, t);
    while top > m && m > bottom
      invariant bottom <= m <= top <= a.Length
      invariant Rotate(a[..], bottom, m, top) == target
      decreases top - bottom
    {
      if top - m > m - bottom {
        SwapBottom(a, bottom, m, top);
        top := top - (m - bottom);
      } else {
        SwapTop(a, bottom, m, top);
        bottom := bottom + (top - m);
      }
    }
    RotateNothing(a[..], bottom, m, top);
  }

  lemma RotateNothing<T>(s: seq<T>, b: nat, m: nat, t: nat)
    requires b <= m <= t <= |s| && (b == m || m == t)
    ensures Rotate(s, b, m, t) == s
  {
  }

  /** The segments of a list after its segments [b,m) and [m,t) were exchanged. */
  lemma RotateSegments<T>(s: seq<T>, b: nat, m: nat, t: nat)
    requires 1 <= b <= m <= t <= |s|
    ensures var r, f := Rotate(s, b, m, t), b + (t - m);
            && |r| == |s| && r[0] == s[0]
            && r[1..f] == s[1..b] + s[m..t]
            && r[f..t] == s[b..m]
            && r[t..] == s[t..]
  {
    var r, f := Rotate(s, b, m, t), b + (t - m);
    assert r[1..b] == s[1..b];
    assert r[b..f] == s[m..t];
    assert r[1..f] == r[1..b] + r[b..f];
    assert r[f..t] == s[b..m];
  }

  /** Layout during a scan: options so far, skipped non-options, newer options, unscanned rest. */
  ghost predicate Layout(o: Options, original: seq<string>, argv: seq<string>, emitted: seq<Outcome>,
                         first: nat, last: nat, optind: nat, chars: string) {
    && |argv| == |original| && 1 <= first <= last <= optind <= |argv|
    && argv[0] == original[0]
    && argv[optind..] == original[optind..]
    && (chars != "" ==> optind < |argv| && !IsLong(o, argv[optind]))
    && Leaves(Parse(o, original[1..]), emitted, argv[1..first] + argv[last..optind], argv[first..last],
              ParseFrom(o, chars, original[optind..]))
  }

  lemma LayoutGathers(o: Options, original: seq<string>, argv: seq<string>, emitted: seq<Outcome>,
                      first: nat, last: nat, optind: nat)
    requires Layout(o, original, argv, emitted, first, last, optind, "")
    ensures Layout(o, original, Rotate(argv, first, last, optind), emitted,
                   first + (optind - last), optind, optind, "")
  {
    RotateSegments(argv, first, last, optind);
    var r, f := Rotate(argv, first, last, optind), first + (optind - last);
    assert r[1..f] + r[optind..optind] == argv[1..first] + argv[last..optind];
  }

  /** How the slices of a list change when the scan moves past position `i`. */
  lemma SkipSlices<T>(s: seq<T>, t: seq<T>, first: nat, i: nat)
    requires first <= i < |s| && |t| == |s| && s[i..] == t[i..]
    ensures t[i..][0] == s[i] && t[i..][..1] == [s[i]] && t[i..][1..] == t[i + 1..]
    ensures s[first..i + 1] == s[first..i] + [s[i]] && s[i + 1..] == t[i + 1..]
    ensures s[i..i] == s[i + 1..i + 1]
  {
    assert t[i..][0] == s[i..][0];
    assert t[i + 1..] == t[i..][1..] && s[i + 1..] == s[i..][1..];
  }

  lemma LayoutSkips(o: Options, original: seq<string>, argv: seq<string>, emitted: seq<Outcome>, first: nat, optind: nat)
    requires Layout(o, original, argv, emitted, first, optind, optind, "")
    requires optind < |argv| && NonOption(argv[optind])
    ensures Layout(o, original, argv, emitted, first, optind + 1, optind + 1, "")
  {
    hide Parse, Leaves;
    SkipSlices(argv, original, first, optind);
    ParseSkips(o, original[optind..]);
    LeavesSkip(Parse(o, original[1..]), emitted, argv[1..first] + argv[optind..optind], argv[first..optind],
               [argv[optind]], Parse(o, original[optind..]), Parse(o, original[optind + 1..]));
    assert argv[1..first] + argv[optind..optind] == argv[1..first] + argv[optind + 1..optind + 1];
  }

  lemma LeavesSkip(whole: Parsed, outcomes: seq<Outcome>, options: seq<string>, operands: seq<string>,
                   skipped: seq<string>, p: Parsed, q: Parsed)
    requires Leaves(whole, outcomes, options, operands, p) && Leaves(p, [], [], skipped, q)
    ensures Leaves(whole, outcomes, options, operands + skipped, q)
  {
    assert outcomes + ([] + q.outcomes) == outcomes + q.outcomes && options + ([] + q.options) == options + q.options;
    assert operands + (skipped + q.operands) == operands + skipped + q.operands;
  }

  /** The layout a finished run leaves: program name, options with arguments, operands. */
  ghost predicate FinalLayout(o: Options, original: seq<string>, argv: seq<string>, emitted: seq<Outcome>, optind: nat) {
    && |original| >= 1
    && var p := Parse(o, original[1..]);
       && argv == original[..1] + p.options + p.operands
       && optind == 1 + |p.options|
       && emitted == p.outcomes
  }

  lemma LayoutEnds(o: Options, original: seq<string>, argv: seq<string>, emitted: seq<Outcome>, first: nat)
    requires first <= |argv|
    requires Layout(o, original, argv, emitted, first, |argv|, |argv|, "")
    ensures FinalLayout(o, original, argv, emitted, first)
  {
    assert original[|argv|..] == [];
    assert argv[1..first] + argv[|argv|..|argv|] == argv[1..first];
    assert argv == argv[..1] + argv[1..first] + argv[first..];
  }

  lemma LayoutDoubleDash(o: Options, original: seq<string>, argv: seq<string>, emitted: seq<Outcome>, first: nat, m: nat)
    requires Layout(o, original, argv, emitted, first, m, m, "")
    requires m < |argv| && argv[m] == "--"
    ensures FinalLayout(o, original, Rotate(argv, first, m, m + 1), emitted, first + 1)
  {
    var rest := original[m..];
    assert rest == argv[m..];
    assert rest[0] == "--";
    assert Parse(o, rest) == Parsed([], rest[..1], rest[1..]);
    assert argv[1..first] + argv[m..m] == argv[1..first];
    var p := Parse(o, original[1..]);
    assert p.outcomes == emitted && p.options == argv[1..first] + rest[..1] && p.operands == argv[first..m] + rest[1..];
    DoubleDashJoins(argv, first, m);
    assert original[..1] == argv[..1];
  }

  lemma DoubleDashJoins(argv: seq<string>, first: nat, m: nat)
    requires 1 <= first <= m < |argv|
    ensures Rotate(argv, first, m, m + 1)
         == argv[..1] + (argv[1..first] + argv[m..][..1]) + (argv[first..m] + argv[m..][1..])
  {
  }

  lemma LayoutAdvances(o: Options, original: seq<string>, argv: seq<string>, emitted: seq<Outcome>,
                       first: nat, last: nat, start: nat, chars: string, r: Outcome, optind: nat, left: string)
    requires Layout(o, original, argv, emitted, first, last, start, chars)
    requires start <= optind <= |argv| && (left != "" ==> optind < |argv| && !IsLong(o, argv[optind]))
    requires ParseFrom(o, chars, original[start..])
          == Follow([r], original[start..optind], ParseFrom(o, left, original[optind..]))
    ensures Layout(o, original, argv, emitted + [r], first, last, optind, left)
  {
    assert argv[optind..] == argv[start..][optind - start..];
    assert original[optind..] == original[start..][optind - start..];
    assert argv[last..optind] == argv[last..start] + argv[start..optind];
    assert argv[start..optind] == argv[start..][..optind - start] == original[start..optind];
    LeavesStep(Parse(o, original[1..]), emitted, argv[1..first] + argv[last..start], argv[first..last],
               r, original[start..optind], ParseFrom(o, left, original[optind..]));
    assert argv[1..first] + argv[last..start] + original[start..optind] == argv[1..first] + argv[last..optind];
  }

  class Scanner {
    const argv: array<string>
    const options: Options
    ghost const original: seq<string>
    var optind: nat
    var firstNonopt: nat
    var lastNonopt: nat
    var initialized: bool
    /** Unscanned option characters; empty stands for a null or exhausted nextchar. */
    var nextchar: string
    ghost var emitted: seq<Outcome>

    ghost predicate Valid()
      reads this, argv
    {
      && PermuteMode(options)
      && Layout(options, original, argv[..], emitted, firstNonopt, lastNonopt, optind, nextchar)
      && (!initialized ==> optind == firstNonopt == lastNonopt == 1 && nextchar == "" && emitted == []
                           && argv[..] == original)
    }

    ghost predicate Finished()
      reads this, argv
    {
      FinalLayout(options, original, argv[..], emitted, optind)
    }

    constructor (argv: array<string>, options: Options)
      requires argv.Length >= 1 && PermuteMode(options)
      ensures Valid() && this.argv == argv && this.options == options && original == argv[..]
      ensures emitted == [] && optind == 1
    {
      this.argv, this.options, this.original := argv, options, argv[..];
      optind, firstNonopt, lastNonopt := 1, 1, 1;
      initialized, nextchar, emitted := false, "", [];
    }

    method Exchange()
      requires firstNonopt <= lastNonopt <= optind <= argv.Length
      modifies this`firstNonopt, this`lastNonopt, argv
      ensures argv[..] == Rotate(old(argv[..]), old(firstNonopt), old(lastNonopt), optind)
      ensures firstNonopt == old(firstNonopt) + (optind - old(lastNonopt)) && lastNonopt == optind
    {
      RotateInPlace(argv, firstNonopt, lastNonopt, optind);
      firstNonopt := firstNonopt + (optind - lastNonopt);
      lastNonopt := optind;
    }

    /** The part of the scan that looks for the next option element. */
    method FindElement() returns (finished: bool)
      requires Valid() && nextchar == ""
      modifies this`optind, this`firstNonopt, this`lastNonopt, this`initialized, argv
      ensures finished ==> Finished()
      ensures !finished ==> Valid() && initialized && optind < argv.Length
                            && !NonOption(argv[optind]) && argv[optind] != "--"
    {
      hide Leaves, FinalLayout;
      initialized := true;
      Gather();
      SkipNonOptions();
      finished := EndOfOptions();
    }

    /** Ends the scan on `--` or after the last element, backing over the skipped non-options. */
    method EndOfOptions() returns (finished: bool)
      requires firstNonopt <= lastNonopt == optind
      requires Layout(options, original, argv[..], emitted, firstNonopt, optind, optind, "")
      modifies this`optind, this`firstNonopt, this`lastNonopt, argv
      ensures finished ==> Finished()
      ensures !finished ==> old(optind) < argv.Length && old(argv[optind]) != "--"
      ensures !finished ==> argv[..] == old(argv[..])
      ensures !finished ==> optind == old(optind) && firstNonopt == old(firstNonopt) && lastNonopt == old(lastNonopt)
    {
      hide Leaves, FinalLayout;
      if optind != argv.Length && argv[optind] == "--" {
        DoubleDash();
      } else if optind == argv.Length {
        LayoutEnds(options, original, argv[..], emitted, firstNonopt);
      }
      finished := optind == argv.Length;
      if optind == argv.Length {
        if firstNonopt != lastNonopt {
          optind := firstNonopt;
        }
      }
    }

    method SkipNonOptions()
      requires firstNonopt <= optind
      requires Layout(options, original, argv[..], emitted, firstNonopt, optind, optind, "")
      modifies this`optind, this`lastNonopt
      ensures firstNonopt <= optind == lastNonopt
      ensures Layout(options, original, argv[..], emitted, firstNonopt, optind, optind, "")
      ensures optind < argv.Length ==> !NonOption(argv[optind])
    {
      hide Leaves;
      while optind < argv.Length && NonOption(argv[optind])
        invariant firstNonopt <= optind
        invariant Layout(options, original, argv[..], emitted, firstNonopt, optind, optind, "")
        decreases argv.Length - optind
      {
        LayoutSkips(options, original, argv[..], emitted, firstNonopt, optind);
        optind := optind + 1;
      }
      lastNonopt := optind;
    }

    /** The element `--` ends the options: it joins them and the rest are operands. */
    method DoubleDash()
      requires firstNonopt <= lastNonopt == optind < argv.Length && argv[optind] == "--"
      requires Layout(options, original, argv[..], emitted, firstNonopt, optind, optind, "")
      modifies this`optind, this`firstNonopt, this`lastNonopt, argv
      ensures optind == lastNonopt == argv.Length
      ensures FinalLayout(options, original, argv[..], emitted, firstNonopt)
    {
      hide Leaves, Rotate, FinalLayout;
      LayoutDoubleDash(options, original, argv[..], emitted, firstNonopt, optind);
      optind := optind + 1;
      if firstNonopt != lastNonopt && lastNonopt != optind {
        Exchange();
      } else if firstNonopt == lastNonopt {
        RotateNothing(argv[..], firstNonopt, lastNonopt, optind);
        firstNonopt := optind;
      }
      lastNonopt := argv.Length;
      optind := argv.Length;
    }

    /** Puts the options met since the last skip in front of the skipped non-options. */
    method Gather()
      requires Valid() && nextchar == "" && initialized
      modifies this`firstNonopt, this`lastNonopt, argv
      ensures firstNonopt <= optind
      ensures Layout(options, original, argv[..], emitted, firstNonopt, optind, optind, "")
    {
      hide Leaves, Rotate;
      LayoutGathers(options, original, argv[..], emitted, firstNonopt, lastNonopt, optind);
      if firstNonopt != lastNonopt && lastNonopt != optind {
        Exchange();
      } else {
        RotateNothing(argv[..], firstNonopt, lastNonopt, optind);
        if lastNonopt != optind {
          firstNonopt := optind;
        }
      }
    }

    /** One call of the scanner. */
    method Next() returns (r: Outcome)
      requires Valid()
      modifies this, argv
      ensures r.code == -1 ==> Finished() && emitted == old(emitted)
      ensures r.code != -1 ==> Valid() && emitted == old(emitted) + [r]
    {
      hide Leaves, FinalLayout, Cluster;
      if nextchar == "" {
        var finished := FindElement();
        if finished {
          return END;
        }
        assert argv[optind] == argv[optind..][0] == original[optind..][0];
        if IsLong(options, argv[optind]) {
          r := DecodeLong();
          return;
        }
        nextchar := argv[optind][1..];
      }
      r := DecodeShort();
    }

    /** Takes the next option character, and its argument if it has one. */
    method TakeShort() returns (r: Outcome)
      requires nextchar != "" && optind < argv.Length
      modifies this`nextchar, this`optind
      ensures ShortStep(options.short, old(nextchar), Second(argv[..][old(optind)..]))
              == (r, nextchar, optind - old(optind))
      ensures r.code != -1
    {
      hide ModeOf;
      ghost var start := optind;
      var c := nextchar[0];
      nextchar := nextchar[1..];
      if nextchar == "" {
        optind := optind + 1;
      }
      match ModeOf(options.short, c) {
        case Unknown =>
          r := REJECTED;
        case NoArgument =>
          r := Outcome(c as int, None, -1);
        case OptionalArgument =>
          if nextchar != "" {
            r := Outcome(c as int, Some(nextchar), -1);
            optind := optind + 1;
          } else {
            r := Outcome(c as int, None, -1);
          }
          nextchar := "";
        case RequiredArgument =>
          if nextchar != "" {
            r := Outcome(c as int, Some(nextchar), -1);
            optind := optind + 1;
          } else if optind == argv.Length {
            r := MissingArgument(options.short);
          } else {
            assert argv[optind] == argv[..][start..][1];
            r := Outcome(c as int, Some(argv[optind]), -1);
            optind := optind + 1;
          }
          nextchar := "";
      }
    }

    method DecodeShort() returns (r: Outcome)
      requires Valid() && initialized && nextchar != ""
      modifies this`nextchar, this`optind, this`emitted
      ensures Valid() && emitted == old(emitted) + [r] && r.code != -1
    {
      hide Leaves, Parse, ParseFrom, ShortStep;
      ghost var rest, start, chars := original[optind..], optind, nextchar;
      assert argv[..][optind..] == rest;
      ShortStepFollows(options, nextchar, rest);
      r := TakeShort();
      Emit(r, start, chars);
    }

    method DecodeLong() returns (r: Outcome)
      requires Valid() && initialized && nextchar == ""
      requires optind < argv.Length && !NonOption(argv[optind]) && argv[optind] != "--" && IsLong(options, argv[optind])
      modifies this`optind, this`emitted
      ensures Valid() && emitted == old(emitted) + [r] && r.code != -1
    {
      hide Leaves, Parse, ParseFrom;
      ghost var rest, start := original[optind..], optind;
      assert argv[optind..] == argv[..][optind..] == rest;
      var long, body := options.long.value, argv[optind][2..];
      assert rest[0] == argv[optind..][0] == argv[optind];
      ghost var step := LongElement(options.short, long, body, Second(rest));
      LongStepFollows(options, rest);
      var eq := Index(body, '=');
      var found := LookUp(long, if eq < 0 then body else body[..eq]);
      optind := optind + 1;
      match found {
        case Ambiguous => r := REJECTED;
        case NotFound => r := REJECTED;
        case Found(i) =>
          var code := if long[i].hasFlag then 0 else long[i].val;
          if eq >= 0 {
            r := if long[i].hasArg != 0 then Outcome(code, Some(body[eq + 1..]), i) else REJECTED;
          } else if long[i].hasArg == 1 {
            if optind < argv.Length {
              assert argv[optind] == argv[start..][1];
              r := Outcome(code, Some(argv[optind]), i);
              optind := optind + 1;
            } else {
              r := MissingArgument(options.short);
            }
          } else {
            r := Outcome(code, None, i);
          }
      }
      assert step == (r, optind - start);
      Emit(r, start, "");
    }

    /** Records `r` as the next outcome, argv[start..optind) having been used up for it. */
    ghost method Emit(r: Outcome, start: nat, chars: string)
      requires PermuteMode(options) && initialized && start <= optind <= argv.Length
      requires Layout(options, original, argv[..], emitted, firstNonopt, lastNonopt, start, chars)
      requires nextchar != "" ==> optind < argv.Length && !IsLong(options, argv[optind])
      requires ParseFrom(options, chars, original[start..])
            == Follow([r], original[start..][..optind - start], ParseFrom(options, nextchar, original[start..][optind - start..]))
      modifies this`emitted
      ensures Valid() && emitted == old(emitted) + [r]
    {
      assert original[start..][..optind - start] == original[start..optind];
      assert original[start..][optind - start..] == original[optind..];
      LayoutAdvances(options, original, argv[..], emitted, firstNonopt, lastNonopt, start, chars, r, optind, nextchar);
      emitted := emitted + [r];
    }
  }

  /** The loop over the long option table. */
  method LookUp(long: seq<LongOption>, name: string) returns (m: LongMatch)
    ensures m == FindLong(long, name, 0, None, false)
    ensures IsLongMatch(long, name, m)
  {
    var found: Option<nat>, ambiguous := None, false;
    FindLongIsLongMatch(long, name, 0, None, false);
    for i := 0 to |long|
      invariant found.Some? ==> found.value < i
      invariant FindLong(long, name, i, found, ambiguous) == FindLong(long, name, 0, None, false)
    {
      if Abbreviates(name, long[i]) {
        if |name| == |long[i].name| {
          return Found(i);
        } else if found.None? {
          found := Some(i);
        } else {
          ambiguous := true;
        }
      }
    }
    return if ambiguous then Ambiguous else if found.Some? then Found(found.value) else NotFound;
  }

  /**
   Calls the scanner until it returns -1, as every user of it does.  A command line written for some
   options gives those options, whatever order they were written in with operands.
   */
  method Run(argv: array<string>, options: Options) returns (optind: nat, outcomes: seq<Outcome>)
    requires argv.Length >= 1 && PermuteMode(options)
    modifies argv
    ensures var p := Parse(options, old(argv[1..]));
            && outcomes == p.outcomes
            && optind == 1 + |p.options|
            && argv[..] == old(argv[..1]) + p.options + p.operands
    ensures forall decls, colon, items :: CommandLine(options, decls, colon, items, old(argv[1..])) ==>
              var p := Meaning(options, items);
              && outcomes == p.outcomes && optind == 1 + |p.options|
              && argv[..] == old(argv[..1]) + p.options + p.operands
  {
    hide CommandLine, Meaning;
    var scanner := new Scanner(argv, options);
    ghost var was := argv[..];
    assert was[1..] == argv[1..] && was[..1] == argv[..1];
    outcomes := [];
    var r := scanner.Next();
    while r.code != -1
      invariant scanner.argv == argv && scanner.options == options && scanner.original == was && fresh(scanner)
      invariant r.code == -1 ==> scanner.Finished() && scanner.emitted == outcomes
      invariant r.code != -1 ==> scanner.Valid() && scanner.emitted == outcomes + [r]
      decreases |Parse(options, was[1..]).outcomes| - |outcomes|
    {
      outcomes := outcomes + [r];
      r := scanner.Next();
    }
    optind := scanner.optind;
    forall decls, colon, items | CommandLine(options, decls, colon, items, old(argv[1..]))
      ensures Parse(options, old(argv[1..])) == Meaning(options, items)
    {
      CommandLineIs(options, decls, colon, items, old(argv[1..]));
    }
  }

  /** The layout a run leaves is a permutation of the arguments it was given. */
  lemma LayoutPermutes(o: Options, argv: seq<string>)
    requires |argv| >= 1
    ensures var p := Parse(o, argv[1..]);
            multiset(argv[..1] + p.options + p.operands) == multiset(argv)
  {
    ParsePermutes(o, argv[1..]);
    assert argv == argv[..1] + argv[1..];
  }
}
