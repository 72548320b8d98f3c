/** The launch-command pieces that both versions of `run_test_case` build the same way:
    the ports argument and the extra flags taken from the `args` mapping. */
module Launch {
  import opened Text

  /** `kraft run --rm`: the head of every launch command. */
  const Launcher: seq<string> := ["kraft", "run", "--rm"]
  const MemoryOption: string := "-M"
  const PlatOption: string := "--plat"
  const ArchOption: string := "--arch"

  /** The fixed words of the command are single tokens. */
  lemma FixedWords()
    ensures SplitAll(Launcher) == Launcher
    ensures IsWord(MemoryOption) && IsWord(PlatOption) && IsWord(ArchOption)
  {
    LauncherWords();
    assert IsWord(MemoryOption) by { VisibleWord(MemoryOption); }
    assert IsWord(PlatOption) by { VisibleWord(PlatOption); }
    assert IsWord(ArchOption) by { VisibleWord(ArchOption); }
  }

  lemma LauncherWords()
    ensures SplitAll(Launcher) == Launcher
  {
    assert IsWord(Launcher[0]) by { VisibleWord("kraft"); }
    assert IsWord(Launcher[1]) by { VisibleWord("run"); }
    assert IsWord(Launcher[2]) by { VisibleWord("--rm"); }
    SplitAllWords(Launcher);
  }

  /** A value of the `args` mapping as loaded from JSON. */
  datatype ArgValue = Null | Flag(b: bool) | Number(n: int) | Str(s: string)

  /** Python truthiness of an `args` value. */
  predicate Truthy(v: ArgValue) {
    match v
    case Null => false
    case Flag(b) => b
    case Number(n) => n != 0
    case Str(s) => s != ""
  }

  /** How `f"{value}"` renders a value that is not a boolean. */
  function ValueText(v: ArgValue): string
    requires !v.Flag?
  {
    match v
    case Null => "None"
    case Number(n) => Decimal(n)
    case Str(s) => s
  }

  /** No separator anywhere in `s` (it may be empty). */
  predicate NoSpace(s: string) {
    forall i :: 0 <= i < |s| ==> !IsSpace(s[i])
  }

  /** `f"{published}:{internal}"` for one port mapping. */
  function PairText(p: (int, int)): (s: string)
    ensures IsWord(s)
  {
    Decimal(p.0) + ":" + Decimal(p.1)
  }

  function PairTexts(ports: seq<(int, int)>): (r: seq<string>)
    ensures |r| == |ports|
    ensures forall k :: 0 <= k < |r| ==> r[k] == PairText(ports[k])
  {
    if |ports| == 0 then []
    else
      var rest := PairTexts(ports[1..]);
      assert forall k :: 1 <= k < |ports| ==> rest[k - 1] == PairText(ports[k]);
      [PairText(ports[0])] + rest
  }

  /** The ports argument: `"-p"` glued to the space-joined pairs, or "" when there are none. */
  function PortsArg(ports: seq<(int, int)>): string {
    if |ports| == 0 then "" else "-p" + Join(" ", PairTexts(ports))
  }

  /** The port tokens the launcher receives: the first pair glued to `-p`, then every other
      pair on its own, in list order. */
  function PortTokens(ports: seq<(int, int)>): seq<string> {
    if |ports| == 0 then [] else ["-p" + PairText(ports[0])] + PairTexts(ports[1..])
  }

  /** The ports argument after `split()`: only the first pair carries the `-p`, every other
      pair is a token of its own, in list order; no ports, no tokens. */
  lemma PortsArgTokens(ports: seq<(int, int)>)
    ensures Split(PortsArg(ports)) == PortTokens(ports)
  {
    if |ports| > 0 {
      var pts := PairTexts(ports);
      var first := "-p" + pts[0];
      PortsFirstWord(pts[0]);
      if |ports| == 1 {
        assert PortsArg(ports) == first;
        SplitWord(first);
      } else {
        PortsArgSpaced(ports);
      }
    }
  }

  lemma PortsFirstWord(w: string)
    requires IsWord(w)
    ensures IsWord("-p" + w)
  {
    GlueWord("-p", w);
  }

  lemma PortsArgSpaced(ports: seq<(int, int)>)
    requires |ports| > 1 && IsWord("-p" + PairText(ports[0]))
    ensures Split(PortsArg(ports)) == ["-p" + PairText(ports[0])] + PairTexts(ports[1..])
  {
    var pts := PairTexts(ports);
    JoinGlued(" ", "-p", pts);
    var words := [("-p" + pts[0])] + pts[1..];
    assert pts[1..] == PairTexts(ports[1..]);
    forall k | 0 <= k < |words| ensures IsWord(words[k]) {
      if k > 0 {
        assert words[k] == pts[k];
      }
    }
    SplitJoinWords(words);
  }

  lemma GlueWord(a: string, b: string)
    requires NoSpace(a) && IsWord(b)
    ensures IsWord(a + b)
  {
    var w := a + b;
    assert forall i :: |a| <= i < |w| ==> w[i] == b[i - |a|];
  }

  /** What one `args` entry appends: nothing when falsy, `--name` for `True`,
      `--name value` otherwise. */
  function FlagFor(name: string, value: ArgValue): seq<string> {
    if !Truthy(value) then []
    else if value.Flag? then ["--" + name]
    else ["--" + name + " " + ValueText(value)]
  }

  /** The `args` list after the loop over the mapping's entries, in their order. */
  function ExtraFlags(args: seq<(string, ArgValue)>): seq<string> {
    if |args| == 0 then []
    else ExtraFlags(args[..|args| - 1]) + FlagFor(args[|args| - 1].0, args[|args| - 1].1)
  }

  /** The loop that appends one flag per truthy `args` entry. */
  method BuildFlags(args: seq<(string, ArgValue)>) returns (flags: seq<string>)
    ensures flags == ExtraFlags(args)
  {
    flags := [];
    for i := 0 to |args|
      invariant flags == ExtraFlags(args[..i])
    {
      var (name, value) := args[i];
      if Truthy(value) {
        if value.Flag? {
          flags := flags + ["--" + name];
        } else {
          flags := flags + ["--" + name + " " + ValueText(value)];
        }
      }
      assert args[..i + 1][..i] == args[..i];
    }
    assert args[..|args|] == args;
  }

  /** The number of truthy entries. */
  function TruthyCount(args: seq<(string, ArgValue)>): nat {
    if |args| == 0 then 0 else TruthyCount(args[1..]) + (if Truthy(args[0].1) then 1 else 0)
  }

  lemma {:induction false} ExtraFlagsAppend(a: seq<(string, ArgValue)>, b: seq<(string, ArgValue)>)
    ensures ExtraFlags(a + b) == ExtraFlags(a) + ExtraFlags(b)
    decreases |b|
  {
    if |b| == 0 {
      assert a + b == a;
    } else {
      var b' := b[..|b| - 1];
      assert (a + b)[..|a + b| - 1] == a + b';
      ExtraFlagsAppend(a, b');
    }
  }

  /** A falsy entry contributes no flag; every truthy entry exactly one, and the flags
      follow the order of the entries. */
  lemma {:induction false} ExtraFlagsCount(args: seq<(string, ArgValue)>)
    ensures |ExtraFlags(args)| == TruthyCount(args)
    ensures |args| > 0 ==> ExtraFlags(args) == FlagFor(args[0].0, args[0].1) + ExtraFlags(args[1..])
  {
    if |args| > 0 {
      assert args == [args[0]] + args[1..];
      ExtraFlagsAppend([args[0]], args[1..]);
      assert ExtraFlags([args[0]]) == FlagFor(args[0].0, args[0].1) by {
        assert [args[0]][..0] == [];
      }
      ExtraFlagsCount(args[1..]);
    }
  }

  /** The tokens one entry's flag splits into. */
  function ArgTokens(name: string, value: ArgValue): seq<string> {
    if !Truthy(value) then []
    else if value.Flag? then ["--" + name]
    else ["--" + name] + Split(ValueText(value))
  }

  /** The tokens of all entries, in order. */
  function FlagTokens(args: seq<(string, ArgValue)>): seq<string> {
    if |args| == 0 then []
    else FlagTokens(args[..|args| - 1]) + ArgTokens(args[|args| - 1].0, args[|args| - 1].1)
  }

  lemma DashedWord(name: string)
    requires NoSpace(name)
    ensures IsWord("--" + name)
  {
    var w := "--" + name;
    assert forall i :: 2 <= i < |w| ==> w[i] == name[i - 2];
    assert w[0] == '-';
  }

  /** After the split, each flag named by a separator-free key is one `--name` token,
      followed by the tokens of its value when it is not a boolean. */
  lemma {:induction false} ExtraFlagsTokens(args: seq<(string, ArgValue)>)
    requires forall k :: 0 <= k < |args| ==> NoSpace(args[k].0)
    ensures SplitAll(ExtraFlags(args)) == FlagTokens(args)
  {
    if |args| > 0 {
      var prefix := args[..|args| - 1];
      var (name, value) := args[|args| - 1];
      ExtraFlagsTokens(prefix);
      SplitAllAppend(ExtraFlags(prefix), FlagFor(name, value));
      DashedWord(name);
      SplitWord("--" + name);
      if Truthy(value) && !value.Flag? {
        SplitSpaced("--" + name, ValueText(value));
        assert "--" + name + " " + ValueText(value) == ("--" + name) + " " + ValueText(value);
      }
    }
  }

  /** The joined flags split back into the flag tokens. */
  lemma FlagsTokens(args: seq<(string, ArgValue)>)
    requires forall k :: 0 <= k < |args| ==> NoSpace(args[k].0)
    ensures Split(Join(" ", ExtraFlags(args))) == FlagTokens(args)
  {
    SplitJoin(ExtraFlags(args));
    ExtraFlagsTokens(args);
  }

  /** A value made only of separators is truthy yet leaves nothing after `--name`. */
  lemma BlankValueLeavesBareFlag(name: string, blank: string)
    requires NoSpace(name)
    requires |blank| > 0 && forall i :: 0 <= i < |blank| ==> IsSpace(blank[i])
    ensures SplitAll(ExtraFlags([(name, Str(blank))])) == ["--" + name]
  {
    assert [(name, Str(blank))][..0] == [];
    assert Split(blank) == [] by { BlankSplit(blank); }
    ExtraFlagsTokens([(name, Str(blank))]);
  }

  lemma {:induction false} BlankSplit(s: string)
    requires forall i :: 0 <= i < |s| ==> IsSpace(s[i])
    ensures Split(s) == []
  {
    if |s| > 0 { BlankSplit(s[1..]); }
  }
}
