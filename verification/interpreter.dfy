/** One turn of the command loop: `precmd`, then the line parsing and
    dispatch that `HBNBCommand` inherits from `cmd.Cmd` (strip the line, an
    empty line goes to `emptyline`, the leading identifier characters name
    the command, the stripped remainder is its argument, an unknown name is
    reported as unknown syntax). A session runs turns until one stops. */
module Interpreter {
  import opened Text
  import opened Store
  import opened Console
  import opened Properties

  /** The commands that have a `do_` handler (`help` comes with `cmd.Cmd`). */
  const Commands: set<string> :=
    {"quit", "EOF", "create", "show", "destroy", "all", "update", "count", "help"}

  /** A parsed line: nothing, a line handed to `default`, or a command name,
      its argument and the line it came from. */
  datatype Line = Blank | Default(text: string) | Command(name: string, arg: string, text: string)

  /** `cmd.Cmd.parseline`. A leading `?` is read as `help`; a leading `!`
      goes to `default`, since there is no `do_shell`. */
  function ParseLine(line: string): (p: Line)
    ensures p == Blank <==> AllSpace(line)
    ensures p.Command? ==> Trimmed(p.arg)
  {
    var l := Strip(line);
    if l == [] then Blank
    else if l[0] == '!' then Default(l)
    else
      var l' := if l[0] == '?' then "help " + l[1..] else l;
      var i := WordPrefixLength(l');
      Command(l'[..i], Strip(l'[i..]), l')
  }

  /** Call the handler `do_<name>`. */
  function Dispatch(store: Store, name: string, arg: string, id: string): (o: Outcome)
    requires name in Commands
    ensures o.stop <==> name == "quit" || name == "EOF"
    ensures o.stop ==> o.store == store
    ensures o.store != store ==> name == "create" || name == "destroy" || name == "update"
  {
    if name == "quit" then Quit(store, arg)
    else if name == "EOF" then Eof(store, arg)
    else if name == "create" then Create(store, arg, id)
    else if name == "show" then Show(store, arg)
    else if name == "destroy" then Destroy(store, arg)
    else if name == "all" then All(store, arg)
    else if name == "update" then Update(store, arg)
    else if name == "count" then Count(store, arg)
    else Outcome(Help(arg), store, false)
  }

  /** A parsed line that ends the loop: the command `quit` or `EOF`. */
  predicate IsStop(p: Line) {
    p.Command? && (p.name == "quit" || p.name == "EOF")
  }

  /** An input line that ends the loop once `precmd` has rewritten it. */
  predicate StopsLine(line: string) {
    IsStop(ParseLine(PreCmd(line)))
  }

  /** `cmd.Cmd.onecmd`. The identifier `id` is the one a `create` in this
      turn would give its new instance. Only `quit` and `EOF` stop the loop,
      and they leave the store alone. */
  function OneCmd(store: Store, line: string, id: string): (o: Outcome)
    ensures o.stop <==> IsStop(ParseLine(line))
    ensures o.stop ==> o.store == store
  {
    match ParseLine(line)
    case Blank => EmptyLine(store)
    case Default(l) => Outcome(UnknownSyntax(l), store, false)
    case Command(name, arg, l) =>
      if name in Commands then Dispatch(store, name, arg, id)
      else Outcome(UnknownSyntax(l), store, false)
  }

  /** One turn: `precmd`, then `onecmd`. Whether a turn stops depends on the
      line alone, never on the store. */
  function Interpret(store: Store, line: string, id: string): (o: Outcome)
    ensures o.stop <==> StopsLine(line)
    ensures o.stop ==> o.store == store
  {
    OneCmd(store, PreCmd(line), id)
  }

  /** The replies of a run of turns, the final store, and whether a turn
      stopped the loop. */
  datatype Transcript = Transcript(replies: seq<Reply>, store: Store, stopped: bool)

  /** What the loop does with one line: the store, the line and the
      identifier a `create` would use give the turn's outcome. */
  type Step = (Store, string, string) -> Outcome

  /** Run the lines in order with `step`, the i-th with fresh identifier
      `ids[i]`, until one of them stops the loop. */
  function Run(step: Step, store: Store, lines: seq<string>, ids: seq<string>): (t: Transcript)
    requires |ids| == |lines|
    ensures 0 < |t.replies| <= |lines| || (lines == [] && t.replies == [])
    ensures t.stopped ==> lines != []
    ensures !t.stopped ==> |t.replies| == |lines|
    decreases |lines|
  {
    if lines == [] then Transcript([], store, false)
    else
      var o := step(store, lines[0], ids[0]);
      if o.stop then Transcript([o.reply], o.store, true)
      else
        var t := Run(step, o.store, lines[1..], ids[1..]);
        Transcript([o.reply] + t.replies, t.store, t.stopped)
  }

  /** The index of the first `true` flag, or `|flags|` when there is none. */
  function FirstTrue(flags: seq<bool>): (n: nat)
    ensures n <= |flags|
    ensures n < |flags| ==> flags[n]
    ensures forall i :: 0 <= i < n ==> !flags[i]
  {
    if flags == [] || flags[0] then 0 else 1 + FirstTrue(flags[1..])
  }

  /** For each line, whether `stops` holds of it. */
  function Flags(stops: string -> bool, lines: seq<string>): (f: seq<bool>)
    ensures |f| == |lines|
    ensures forall i :: 0 <= i < |lines| ==> f[i] == stops(lines[i])
  {
    seq(|lines|, i requires 0 <= i < |lines| => stops(lines[i]))
  }

  /** When whether a step stops depends on the line alone, a run stops
      exactly when some line stops it, at the first such line, after
      replying to it and to every line before it. */
  lemma {:induction false} RunStopsAtFirst(step: Step, stops: string -> bool, store: Store, lines: seq<string>, ids: seq<string>)
    requires |ids| == |lines|
    requires forall s, l, d :: step(s, l, d).stop == stops(l)
    ensures var n := FirstTrue(Flags(stops, lines));
      && (Run(step, store, lines, ids).stopped <==> n < |lines|)
      && |Run(step, store, lines, ids).replies| == (if n < |lines| then n + 1 else |lines|)
    decreases |lines|
  {
    if lines != [] {
      var o := step(store, lines[0], ids[0]);
      if !o.stop {
        RunStopsAtFirst(step, stops, o.store, lines[1..], ids[1..]);
        assert Flags(stops, lines)[1..] == Flags(stops, lines[1..]);
      }
    }
  }

  /** The store a run has reached after its first `i` lines. */
  function StoreAfter(step: Step, store: Store, lines: seq<string>, ids: seq<string>, i: nat): Store
    requires |ids| == |lines| && i <= |lines|
  {
    Run(step, store, lines[..i], ids[..i]).store
  }

  /** A run whose first line does not stop continues as the run of the
      remaining lines from the store that line left behind. */
  lemma StoreAfterStep(step: Step, store: Store, lines: seq<string>, ids: seq<string>, i: nat)
    requires |ids| == |lines| && 0 < i <= |lines|
    requires !step(store, lines[0], ids[0]).stop
    ensures StoreAfter(step, store, lines, ids, i) ==
      StoreAfter(step, step(store, lines[0], ids[0]).store, lines[1..], ids[1..], i - 1)
  {
    assert lines[..i][0] == lines[0] && ids[..i][0] == ids[0];
    assert lines[..i][1..] == lines[1..][..i - 1];
    assert ids[..i][1..] == ids[1..][..i - 1];
  }

  /** The i-th reply of a run is the reply of the i-th line, run on the store
      the earlier lines left behind. */
  lemma {:induction false} RunReplies(step: Step, store: Store, lines: seq<string>, ids: seq<string>, i: nat)
    requires |ids| == |lines|
    requires i < |Run(step, store, lines, ids).replies|
    ensures Run(step, store, lines, ids).replies[i] ==
      step(StoreAfter(step, store, lines, ids, i), lines[i], ids[i]).reply
    decreases |lines|
  {
    var o := step(store, lines[0], ids[0]);
    if i > 0 {
      RunReplies(step, o.store, lines[1..], ids[1..], i - 1);
      StoreAfterStep(step, store, lines, ids, i);
      assert lines[1..][i - 1] == lines[i] && ids[1..][i - 1] == ids[i];
    } else {
      assert lines[..0] == [] && ids[..0] == [];
    }
  }

  /** `cmdloop`: run the input lines as turns, `while not stop`. The session
      ends at the first `quit` or `EOF` line, having replied to it and to
      every line before it, and replies to every line when there is none. */
  function Session(store: Store, lines: seq<string>, ids: seq<string>): (t: Transcript)
    requires |ids| == |lines|
    ensures var n := FirstTrue(Flags(StopsLine, lines));
      && (t.stopped <==> n < |lines|)
      && |t.replies| == (if n < |lines| then n + 1 else |lines|)
  {
    RunStopsAtFirst(Interpret, StopsLine, store, lines, ids);
    Run(Interpret, store, lines, ids)
  }

  /** The i-th reply of a session is what `Interpret` replies to the i-th
      line on the store the earlier lines left behind. */
  lemma SessionReplies(store: Store, lines: seq<string>, ids: seq<string>, i: nat)
    requires |ids| == |lines|
    requires i < |Session(store, lines, ids).replies|
    ensures Session(store, lines, ids).replies[i] ==
      Interpret(StoreAfter(Interpret, store, lines, ids, i), lines[i], ids[i]).reply
  {
    RunReplies(Interpret, store, lines, ids, i);
  }

  // ---------------------------------------------------------------------
  // Properties of a turn
  // ---------------------------------------------------------------------

  lemma WordCharNotSpace(c: char)
    ensures IsWordChar(c) ==> !IsSpace(c) && c != '!' && c != '?'
  {
  }

  /** A line of blanks does nothing: `emptyline` is overridden so that the
      previous command is not repeated. */
  lemma BlankLineDoesNothing(store: Store, line: string, id: string)
    requires AllSpace(line)
    ensures Interpret(store, line, id) == Outcome(Silent, store, false)
  {
    if line != [] {
      WordCharNotSpace(line[0]);
    }
  }

  /** The argument a command receives from `cmd.Cmd` is stripped, so a
      non-empty one always has a first token: `__get_class_args` never reaches
      its `IndexError` through the interpreter. */
  lemma InterpretNeverCrashes(store: Store, line: string, id: string)
    ensures Interpret(store, line, id).reply != Crashed
  {
    OneCmdNeverCrashes(store, PreCmd(line), id);
  }

  lemma OneCmdNeverCrashes(store: Store, line: string, id: string)
    ensures OneCmd(store, line, id).reply != Crashed
  {
    var p := ParseLine(line);
    if p.Command? && p.name in Commands {
      DispatchNeverCrashes(store, p.name, p.arg, id);
    }
  }

  lemma DispatchNeverCrashes(store: Store, name: string, arg: string, id: string)
    requires name in Commands && Trimmed(arg)
    ensures Dispatch(store, name, arg, id).reply != Crashed
  {
    if arg != "" {
      SolidStartHasToken(arg);
    }
  }

  /** The argument `cmd.Cmd` hands to the handler of a rewritten dot-form
      line: the class, then the rewritten parameters if there are any. */
  function CallArg(c: Call): string {
    var a := RewrittenArgs(c.params);
    if a == [] then c.cls else c.cls + (" " + a)
  }

  lemma CallArgTrimmed(c: Call)
    requires ValidCall(c)
    ensures Trimmed(CallArg(c))
    ensures Trimmed(c.name + (" " + CallArg(c)))
  {
    WordCharNotSpace(c.cls[0]);
    WordCharNotSpace(c.cls[|c.cls| - 1]);
    WordCharNotSpace(c.name[0]);
  }

  lemma PositionalStrips(c: Call)
    requires ValidCall(c)
    ensures Strip(Positional(c)) == c.name + (" " + CallArg(c))
  {
    var a := RewrittenArgs(c.params);
    CallArgTrimmed(c);
    var m := c.name + (" " + CallArg(c));
    if a == [] {
      assert Positional(c) == [] + m + " ";
    } else {
      assert Positional(c) == [] + m + [];
    }
    StripUnique([], m, if a == [] then " " else []);
  }

  /** `Cls.name(params)` runs the handler `do_name` on the argument
      `Cls args`: the dot form and the positional form are one command. */
  lemma DotFormRunsHandler(store: Store, c: Call, tail: string, id: string)
    requires ValidCall(c) && LineEnd(tail)
    requires c.name in Commands
    ensures Interpret(store, DotLine(c, tail), id) == Dispatch(store, c.name, CallArg(c), id)
  {
    PreCmdRewrites(c, tail);
    ParsePositional(c);
  }

  /** A line that strips to a word, a space and trimmed text is read as the
      command named by the word, with the text as its argument. */
  lemma ParseNameArg(line: string, name: string, arg: string)
    requires IsWord(name) && Trimmed(arg)
    requires Strip(line) == name + (" " + arg)
    ensures ParseLine(line) == Command(name, arg, name + (" " + arg))
  {
    var rest := " " + arg;
    WordCharNotSpace(name[0]);
    WordPrefixLengthOf(name, rest);
    assert (name + rest)[0] == name[0];
    assert (name + rest)[..|name|] == name;
    assert (name + rest)[|name|..] == rest;
    assert rest == " " + arg + [];
    StripUnique(" ", arg, []);
  }

  /** `cmd.Cmd` reads the rewritten line as the command `name` with the
      argument `Cls args`. */
  lemma ParsePositional(c: Call)
    requires ValidCall(c)
    ensures ParseLine(Positional(c)) == Command(c.name, CallArg(c), c.name + (" " + CallArg(c)))
  {
    PositionalStrips(c);
    CallArgTrimmed(c);
    ParseNameArg(Positional(c), c.name, CallArg(c));
  }

  /** Every turn keeps the store well formed. */
  lemma InterpretKeepsWellFormed(store: Store, line: string, id: string)
    requires WellFormed(store)
    ensures WellFormed(Interpret(store, line, id).store)
  {
    OneCmdKeepsWellFormed(store, PreCmd(line), id);
  }

  lemma OneCmdKeepsWellFormed(store: Store, line: string, id: string)
    requires WellFormed(store)
    ensures WellFormed(OneCmd(store, line, id).store)
  {
    var p := ParseLine(line);
    if p.Command? && p.name in Commands {
      DispatchKeepsWellFormed(store, p.name, p.arg, id);
    }
  }

  lemma DispatchKeepsWellFormed(store: Store, name: string, arg: string, id: string)
    requires name in Commands && WellFormed(store)
    ensures WellFormed(Dispatch(store, name, arg, id).store)
  {
    CreateKeepsWellFormed(store, arg, id);
    DestroyKeepsWellFormed(store, arg);
    UpdateKeepsWellFormed(store, arg);
  }

  /** A whole session, started from a well-formed store (such as the empty
      one), ends in a well-formed store. */
  lemma {:induction false} SessionKeepsWellFormed(store: Store, lines: seq<string>, ids: seq<string>)
    requires |ids| == |lines|
    requires WellFormed(store)
    ensures WellFormed(Session(store, lines, ids).store)
    decreases |lines|
  {
    if lines != [] {
      InterpretKeepsWellFormed(store, lines[0], ids[0]);
      var o := Interpret(store, lines[0], ids[0]);
      if !o.stop {
        SessionKeepsWellFormed(o.store, lines[1..], ids[1..]);
      }
    }
  }

  /** A bare word has no dot, so `precmd` passes it through. */
  lemma PreCmdOfWord(w: string)
    requires IsWord(w)
    ensures PreCmd(w) == w
  {
  }

  /** A bare word is read as the command it names, with an empty argument. */
  lemma ParseWord(w: string)
    requires IsWord(w)
    ensures ParseLine(w) == Command(w, "", w)
  {
    WordCharNotSpace(w[0]);
    WordCharNotSpace(w[|w| - 1]);
    assert w == [] + w + [];
    StripUnique([], w, []);
    assert w == w + [];
    WordPrefixLengthOf(w, []);
    assert w[|w|..] == [];
  }

  /** The line `EOF` is the `EOF` command: it prints a line break, keeps the
      store and stops the loop. */
  lemma EofLine(store: Store, id: string)
    ensures Interpret(store, "EOF", id) == Outcome(Newline, store, true)
  {
    assert IsWord("EOF");
    PreCmdOfWord("EOF");
    ParseWord("EOF");
    assert OneCmd(store, "EOF", id) == Dispatch(store, "EOF", "", id);
    assert Dispatch(store, "EOF", "", id) == Eof(store, "");
  }

  /** `cmdloop` on a finite input: at end of input it runs the line `EOF`,
      so every complete session stops. It stops at the first `quit` or `EOF`
      among the input lines, or else at the end of input after replying to
      every line and printing a line break. */
  function CompleteSession(store: Store, lines: seq<string>, ids: seq<string>): (t: Transcript)
    requires |ids| == |lines|
    ensures t.stopped
    ensures var n := FirstTrue(Flags(StopsLine, lines));
      && (n < |lines| ==> |t.replies| == n + 1)
      && (n == |lines| ==> |t.replies| == |lines| + 1 && t.replies[|lines|] == Newline)
  {
    var all := lines + ["EOF"];
    var t := Session(store, all, ids + [""]);
    EndOfInput(store, lines, ids);
    t
  }

  /** A run whose last line stops it always stops: at the first stopping
      line of the rest if there is one, or else at the last line, whose reply
      is the step's reply on the store the other lines left. */
  lemma RunEndsWith(step: Step, stops: string -> bool, store: Store, lines: seq<string>, ids: seq<string>, last: string, lastId: string)
    requires |ids| == |lines|
    requires forall s, l, d :: step(s, l, d).stop == stops(l)
    requires stops(last)
    ensures var t := Run(step, store, lines + [last], ids + [lastId]);
      var n := FirstTrue(Flags(stops, lines));
      && t.stopped
      && (n < |lines| ==> |t.replies| == n + 1)
      && (n == |lines| ==> |t.replies| == |lines| + 1)
      && (n == |lines| ==>
            t.replies[|lines|] == step(StoreAfter(step, store, lines + [last], ids + [lastId], |lines|), last, lastId).reply)
  {
    var all := lines + [last];
    var ids' := ids + [lastId];
    var f := Flags(stops, lines);
    var g := Flags(stops, all);
    assert g[|lines|];
    assert forall i :: 0 <= i < |lines| ==> g[i] == f[i] by {
      assert forall i :: 0 <= i < |lines| ==> all[i] == lines[i];
    }
    assert FirstTrue(g) == FirstTrue(f);
    RunStopsAtFirst(step, stops, store, all, ids');
    if FirstTrue(f) == |lines| {
      RunReplies(step, store, all, ids', |lines|);
    }
  }

  lemma EndOfInput(store: Store, lines: seq<string>, ids: seq<string>)
    requires |ids| == |lines|
    ensures var t := Session(store, lines + ["EOF"], ids + [""]);
      var n := FirstTrue(Flags(StopsLine, lines));
      && t.stopped
      && (n < |lines| ==> |t.replies| == n + 1)
      && (n == |lines| ==> |t.replies| == |lines| + 1 && t.replies[|lines|] == Newline)
  {
    EofLine(map[], "");
    RunEndsWith(Interpret, StopsLine, store, lines, ids, "EOF", "");
    var s' := StoreAfter(Interpret, store, lines + ["EOF"], ids + [""], |lines|);
    EofLine(s', "");
  }
}
