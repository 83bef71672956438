/** The command handlers of the `HBNBCommand` interpreter, each a pure
    transition from a store and an argument string to a reply and a successor
    store, together with the `precmd` line rewrite. */
module Console {
  import opened Text
  import opened Store

  /** The validation failures the console reports. */
  datatype Error =
    | ClassNameMissing
    | ClassDoesntExist
    | InstanceIdMissing
    | NoInstanceFound
    | AttributeNameMissing
    | ValueMissing

  /** The line printed for each failure: the message framed by `** ` and ` **`. */
  function Message(e: Error): (m: string)
    ensures |m| > 6 && m[..3] == "** " && m[|m| - 3..] == " **"
  {
    match e
    case ClassNameMissing => "** class name missing **"
    case ClassDoesntExist => "** class doesn't exist **"
    case InstanceIdMissing => "** instance id missing **"
    case NoInstanceFound => "** no instance found **"
    case AttributeNameMissing => "** attribute name missing **"
    case ValueMissing => "** value missing **"
  }

  /** Distinct failures print distinct lines, so the printed line tells the
      user which check failed. */
  lemma MessageInjective(e1: Error, e2: Error)
    ensures Message(e1) == Message(e2) ==> e1 == e2
  {
  }

  /** What a command prints. Entities stand for their printed form; the
      `Crashed` reply is the `IndexError` that escapes `__get_class_args`. */
  datatype Reply =
    | Silent
    | Failed(error: Error)
    | Crashed
    | NewId(id: string)
    | Shown(entity: Entity)
    | Listed(entries: Store)
    | Counted(n: nat)
    | Newline
    | Help(topic: string)
    | UnknownSyntax(line: string)

  /** A command's effect: its reply, the successor store, and whether the
      command loop stops. */
  datatype Outcome = Outcome(reply: Reply, store: Store, stop: bool)

  // ---------------------------------------------------------------------
  // precmd: Cls.method(params) -> method Cls args
  // ---------------------------------------------------------------------

  /** The three groups of `^(\w+)\.(\w+)\((.*)\)$`. */
  datatype Call = Call(cls: string, name: string, params: string)

  /** What each group can hold. */
  predicate ValidCall(c: Call) {
    IsWord(c.cls) && IsWord(c.name) && NoNewline(c.params)
  }

  /** The text `Cls.method(params)` followed by `tail`. */
  function DotLine(c: Call, tail: string): string {
    c.cls + ("." + (c.name + ("(" + (c.params + (")" + tail)))))
  }

  datatype Match = NoMatch | Matched(call: Call)

  datatype Option<T> = None | Some(value: T)

  /** What may follow a matched line: nothing, or one final line feed
      (`$` matches at the end and just before a final line feed). */
  predicate LineEnd(tail: string) {
    tail == "" || tail == "\n"
  }

  /** Matching of `(.*)\)$` against what follows the opening parenthesis. */
  function MatchParams(body: string): (r: Option<string>)
    ensures r.Some? ==> NoNewline(r.value)
    ensures r.Some? ==> body == r.value + (")" + "") || body == r.value + (")" + "\n")
  {
    if |body| >= 1 && body[|body| - 1] == ')' && NoNewline(body[..|body| - 1]) then
      assert body == body[..|body| - 1] + (")" + "");
      Some(body[..|body| - 1])
    else if |body| >= 2 && body[|body| - 2] == ')' && body[|body| - 1] == '\n'
            && NoNewline(body[..|body| - 2]) then
      assert body == body[..|body| - 2] + (")" + "\n");
      Some(body[..|body| - 2])
    else None
  }

  /** Matching of `(\w+)\((.*)\)$` against what follows the dot, given the
      class group. */
  function MatchAfterDot(cls: string, rest: string): (m: Match)
    ensures m.Matched? ==> m.call.cls == cls && IsWord(m.call.name) && NoNewline(m.call.params)
    ensures m.Matched? ==>
      rest == m.call.name + ("(" + (m.call.params + (")" + ""))) ||
      rest == m.call.name + ("(" + (m.call.params + (")" + "\n")))
  {
    var j := WordPrefixLength(rest);
    if j == 0 || j == |rest| || rest[j] != '(' then NoMatch
    else
      match MatchParams(rest[j + 1..])
      case None => NoMatch
      case Some(p) =>
        SplitAt(rest, j);
        Matched(Call(cls, rest[..j], p))
  }

  /** Matching of `^(\w+)\.(\w+)\((.*)\)$` against a line. */
  function MatchDot(line: string): (m: Match)
    ensures m.Matched? ==> ValidCall(m.call)
    ensures m.Matched? ==> line == DotLine(m.call, "") || line == DotLine(m.call, "\n")
  {
    var i := WordPrefixLength(line);
    if i == 0 || i == |line| || line[i] != '.' then NoMatch
    else
      SplitAt(line, i);
      MatchAfterDot(line[..i], line[i + 1..])
  }

  lemma {:induction false} WordPrefixLengthOf(w: string, rest: string)
    requires forall i :: 0 <= i < |w| ==> IsWordChar(w[i])
    requires rest == [] || !IsWordChar(rest[0])
    ensures WordPrefixLength(w + rest) == |w|
  {
    if w == [] {
      assert w + rest == rest;
    } else {
      assert (w + rest)[1..] == w[1..] + rest;
      WordPrefixLengthOf(w[1..], rest);
    }
  }

  lemma MatchParamsComplete(p: string, tail: string)
    requires NoNewline(p) && LineEnd(tail)
    ensures MatchParams(p + (")" + tail)) == Some(p)
  {
    var body := p + (")" + tail);
    if tail == "" {
      assert body[..|body| - 1] == p;
    } else {
      assert body[..|body| - 2] == p;
    }
  }

  lemma MatchAfterDotComplete(c: Call, tail: string)
    requires ValidCall(c) && LineEnd(tail)
    ensures MatchAfterDot(c.cls, c.name + ("(" + (c.params + (")" + tail)))) == Matched(c)
  {
    var body := c.params + (")" + tail);
    var rest := c.name + ("(" + body);
    WordPrefixLengthOf(c.name, "(" + body);
    assert rest[..|c.name|] == c.name;
    assert rest[|c.name| + 1..] == body;
    MatchParamsComplete(c.params, tail);
  }

  /** Every line of the dot form, with or without a final line feed, matches,
      and the groups are the parts it was built from. */
  lemma MatchDotComplete(c: Call, tail: string)
    requires ValidCall(c) && LineEnd(tail)
    ensures MatchDot(DotLine(c, tail)) == Matched(c)
  {
    var rest := c.name + ("(" + (c.params + (")" + tail)));
    var line := DotLine(c, tail);
    WordPrefixLengthOf(c.cls, "." + rest);
    assert line[..|c.cls|] == c.cls;
    assert line[|c.cls| + 1..] == rest;
    MatchAfterDotComplete(c, tail);
  }

  /** The argument text `precmd` builds from the parenthesised parameters:
      stripped, and with every `", "` replaced by `" "`. */
  function RewrittenArgs(params: string): (a: string)
    ensures a == [] <==> AllSpace(params)
    ensures a == [] || !IsSpace(a[|a| - 1])
  {
    var p := Strip(params);
    if p == [] then p
    else
      ReplaceKeepsEnds(p);
      ReplaceCommaSpace(p)
  }

  /** The rewritten form `method Cls args`. */
  function Positional(c: Call): string {
    c.name + (" " + (c.cls + (" " + RewrittenArgs(c.params))))
  }

  /** `precmd`: rewrite a dot-form line, pass every other line through. */
  function PreCmd(line: string): (r: string)
    ensures MatchDot(line) == NoMatch ==> r == line
    ensures MatchDot(r) == NoMatch
  {
    match MatchDot(line)
    case Matched(c) =>
      PositionalNeverMatches(c);
      Positional(c)
    case NoMatch => line
  }

  /** A dot-form line (with or without a final line feed) is rewritten to
      `method Cls args`. */
  lemma PreCmdRewrites(c: Call, tail: string)
    requires ValidCall(c) && LineEnd(tail)
    ensures PreCmd(DotLine(c, tail)) == c.name + (" " + (c.cls + (" " + RewrittenArgs(c.params))))
  {
    MatchDotComplete(c, tail);
  }

  /** A line that is not of the dot form is returned unchanged. */
  lemma PreCmdPassesThrough(line: string)
    ensures (forall c :: ValidCall(c) ==> line != DotLine(c, "") && line != DotLine(c, "\n"))
            ==> PreCmd(line) == line
  {
  }

  /** The rewritten form is never itself of the dot form. */
  lemma PositionalNeverMatches(c: Call)
    requires ValidCall(c)
    ensures MatchDot(Positional(c)) == NoMatch
  {
    var r := Positional(c);
    WordPrefixLengthOf(c.name, " " + (c.cls + (" " + RewrittenArgs(c.params))));
    assert r[|c.name|] == ' ';
  }

  /** A rewritten line never matches again: `precmd` is idempotent. */
  lemma PreCmdIdempotent(line: string)
    ensures PreCmd(PreCmd(line)) == PreCmd(line)
  {
    if MatchDot(line).Matched? {
      PositionalNeverMatches(MatchDot(line).call);
    }
  }

  // ---------------------------------------------------------------------
  // __get_class_args
  // ---------------------------------------------------------------------

  /** The outcome of `__get_class_args`. */
  datatype ClassArgs = NoClassName | NoSuchClass | IndexError | Parsed(toks: seq<string>)

  /** Tokenise an argument whose first token must be a known class. A
      non-empty argument made only of separators has no first token, and
      `s_args[0]` raises. */
  function GetClassArgs(arg: string): (r: ClassArgs)
    ensures r == NoClassName <==> arg == ""
    ensures r == IndexError <==> arg != "" && Tokenize(arg) == []
    ensures r == NoSuchClass <==> arg != "" && Tokenize(arg) != [] && Tokenize(arg)[0] !in ClassNames
    ensures r.Parsed? ==> r.toks == Tokenize(arg) && |r.toks| > 0 && r.toks[0] in ClassNames
  {
    if arg == "" then NoClassName
    else
      var toks := Tokenize(arg);
      if toks == [] then IndexError
      else if toks[0] !in ClassNames then NoSuchClass
      else Parsed(toks)
  }

  /** Tokens joined by spaces are read back as the same tokens. */
  lemma GetClassArgsOfJoin(toks: seq<string>)
    requires AllTokens(toks) && |toks| > 0
    ensures toks[0] in ClassNames ==> GetClassArgs(Join(toks)) == Parsed(toks)
    ensures toks[0] !in ClassNames ==> GetClassArgs(Join(toks)) == NoSuchClass
  {
    TokenizeJoin(toks);
  }

  /** The reply to a failed `__get_class_args`. */
  function Refusal(r: ClassArgs): (reply: Reply)
    requires !r.Parsed?
    ensures r == NoClassName ==> reply == Failed(ClassNameMissing)
    ensures r == NoSuchClass ==> reply == Failed(ClassDoesntExist)
    ensures r == IndexError <==> reply == Crashed
  {
    match r
    case NoClassName => Failed(ClassNameMissing)
    case NoSuchClass => Failed(ClassDoesntExist)
    case IndexError => Crashed
  }

  // ---------------------------------------------------------------------
  // Commands
  // ---------------------------------------------------------------------

  /** `quit`: stop the loop, print nothing. */
  function Quit(store: Store, arg: string): (o: Outcome)
    ensures o.stop && o.store == store && o.reply == Silent
  {
    Outcome(Silent, store, true)
  }

  /** `EOF`: print a line break and stop the loop. */
  function Eof(store: Store, arg: string): (o: Outcome)
    ensures o.stop && o.store == store && o.reply == Newline
  {
    Outcome(Newline, store, true)
  }

  /** `emptyline`: do nothing (instead of repeating the last command). */
  function EmptyLine(store: Store): (o: Outcome)
    ensures !o.stop && o.store == store && o.reply == Silent
  {
    Outcome(Silent, store, false)
  }

  /** `create <Class>`: the WHOLE argument must be a class name; a fresh
      instance with identifier `id` is stored under `<Class>.<id>` and the
      identifier is printed. */
  function Create(store: Store, arg: string, id: string): (o: Outcome)
    ensures !o.stop
    ensures arg == "" ==> o.reply == Failed(ClassNameMissing) && o.store == store
    ensures arg != "" && arg !in ClassNames ==> o.reply == Failed(ClassDoesntExist) && o.store == store
    ensures arg in ClassNames ==>
      && o.reply == NewId(id)
      && Key(arg, id) in o.store
      && o.store[Key(arg, id)] == NewEntity(arg, id)
      && o.store.Keys == store.Keys + {Key(arg, id)}
      && (forall k :: k in store && k != Key(arg, id) ==> o.store[k] == store[k])
  {
    if |arg| == 0 then Outcome(Failed(ClassNameMissing), store, false)
    else if arg !in ClassNames then Outcome(Failed(ClassDoesntExist), store, false)
    else
      var key := Key(arg, id);
      Outcome(NewId(id), store[key := NewEntity(arg, id)], false)
  }

  /** `show <Class> <id>`: print the instance; never changes the store. */
  function Show(store: Store, arg: string): (o: Outcome)
    ensures !o.stop && o.store == store
    ensures !GetClassArgs(arg).Parsed? ==> o.reply == Refusal(GetClassArgs(arg))
    ensures GetClassArgs(arg).Parsed? && |Tokenize(arg)| < 2 ==> o.reply == Failed(InstanceIdMissing)
    ensures GetClassArgs(arg).Parsed? && |Tokenize(arg)| >= 2 ==>
      var key := Key(Tokenize(arg)[0], Tokenize(arg)[1]);
      (key !in store ==> o.reply == Failed(NoInstanceFound)) &&
      (key in store ==> o.reply == Shown(store[key]))
  {
    match GetClassArgs(arg)
    case Parsed(toks) =>
      if |toks| < 2 then Outcome(Failed(InstanceIdMissing), store, false)
      else
        var key := Key(toks[0], toks[1]);
        if key !in store then Outcome(Failed(NoInstanceFound), store, false)
        else Outcome(Shown(store[key]), store, false)
    case r => Outcome(Refusal(r), store, false)
  }

  /** `destroy <Class> <id>`: remove exactly that key, or report why not. */
  function Destroy(store: Store, arg: string): (o: Outcome)
    ensures !o.stop
    ensures o.reply != Silent ==> o.store == store
    ensures !GetClassArgs(arg).Parsed? ==> o.reply == Refusal(GetClassArgs(arg))
    ensures GetClassArgs(arg).Parsed? && |Tokenize(arg)| < 2 ==> o.reply == Failed(InstanceIdMissing)
    ensures GetClassArgs(arg).Parsed? && |Tokenize(arg)| >= 2 ==>
      var key := Key(Tokenize(arg)[0], Tokenize(arg)[1]);
      (key !in store ==> o.reply == Failed(NoInstanceFound)) &&
      (key in store ==>
        && o.reply == Silent
        && o.store.Keys == store.Keys - {key}
        && (forall k :: k in o.store ==> o.store[k] == store[k]))
  {
    match GetClassArgs(arg)
    case Parsed(toks) =>
      if |toks| < 2 then Outcome(Failed(InstanceIdMissing), store, false)
      else
        var key := Key(toks[0], toks[1]);
        if key !in store then Outcome(Failed(NoInstanceFound), store, false)
        else Outcome(Silent, store - {key}, false)
    case r => Outcome(Refusal(r), store, false)
  }

  /** `update <Class> <id> <attr> <value>`: set one attribute of one
      instance to the given text. The checks run in the order class, id,
      instance, attribute, value; the class check is `__get_class_args`. */
  function Update(store: Store, arg: string): (o: Outcome)
    ensures !o.stop
    ensures o.reply != Silent ==> o.store == store
    ensures !GetClassArgs(arg).Parsed? ==> o.reply == Refusal(GetClassArgs(arg))
    ensures GetClassArgs(arg).Parsed? ==> o == SetAttribute(store, Tokenize(arg))
  {
    match GetClassArgs(arg)
    case Parsed(toks) => SetAttribute(store, toks)
    case r => Outcome(Refusal(r), store, false)
  }

  /** The rest of `update` once the class check has produced `toks`: tokens
      after the fourth are ignored. */
  function SetAttribute(store: Store, toks: seq<string>): (o: Outcome)
    ensures !o.stop
    ensures o.reply != Silent ==> o.store == store
    ensures |toks| < 2 ==> o.reply == Failed(InstanceIdMissing)
    ensures |toks| >= 2 ==>
      var key := Key(toks[0], toks[1]);
      (key !in store ==> o.reply == Failed(NoInstanceFound)) &&
      (key in store && |toks| == 2 ==> o.reply == Failed(AttributeNameMissing)) &&
      (key in store && |toks| == 3 ==> o.reply == Failed(ValueMissing)) &&
      (key in store && |toks| >= 4 ==>
        && o.reply == Silent
        && o.store.Keys == store.Keys
        && o.store[key].cls == store[key].cls
        && o.store[key].attrs.Keys == store[key].attrs.Keys + {toks[2]}
        && o.store[key].attrs[toks[2]] == toks[3]
        && (forall a :: a in store[key].attrs && a != toks[2] ==>
              o.store[key].attrs[a] == store[key].attrs[a])
        && (forall k :: k in store && k != key ==> o.store[k] == store[k]))
  {
    if |toks| < 2 then Outcome(Failed(InstanceIdMissing), store, false)
    else
      var key := Key(toks[0], toks[1]);
      if key !in store then Outcome(Failed(NoInstanceFound), store, false)
      else if |toks| < 3 then Outcome(Failed(AttributeNameMissing), store, false)
      else if |toks| < 4 then Outcome(Failed(ValueMissing), store, false)
      else
        var obj := store[key];
        var obj' := obj.(attrs := obj.attrs[toks[2] := toks[3]]);
        Outcome(Silent, store[key := obj'], false)
  }

  /** `all [<Class>]`: list every instance, or those whose key has class part
      `<Class>`; extra tokens are ignored. Never changes the store. */
  function All(store: Store, arg: string): (o: Outcome)
    ensures !o.stop && o.store == store
    ensures arg == "" ==> o.reply == Listed(store)
    ensures arg != "" && !GetClassArgs(arg).Parsed? ==> o.reply == Refusal(GetClassArgs(arg))
    ensures arg != "" && GetClassArgs(arg).Parsed? ==>
      o.reply.Listed? &&
      forall k :: k in o.reply.entries <==> k in store && KeyClass(k) == Tokenize(arg)[0]
    ensures o.reply.Listed? ==> forall k :: k in o.reply.entries ==> o.reply.entries[k] == store[k]
  {
    if arg == "" then Outcome(Listed(store), store, false)
    else
      match GetClassArgs(arg)
      case Parsed(toks) => Outcome(Listed(Select(store, toks[0])), store, false)
      case NoSuchClass => Outcome(Failed(ClassDoesntExist), store, false)
      case IndexError => Outcome(Crashed, store, false)
      case NoClassName => Outcome(Failed(ClassNameMissing), store, false)
  }

  /** `count [<Class>]`: the number of instances `all` would list. Never
      changes the store. */
  function Count(store: Store, arg: string): (o: Outcome)
    ensures !o.stop && o.store == store
    ensures arg == "" ==> o.reply == Counted(|store|)
    ensures arg != "" && !GetClassArgs(arg).Parsed? ==> o.reply == Refusal(GetClassArgs(arg))
    ensures arg != "" && GetClassArgs(arg).Parsed? ==>
      o.reply == Counted(|ClassKeys(store, Tokenize(arg)[0])|)
  {
    if arg == "" then Outcome(Counted(|store|), store, false)
    else
      match GetClassArgs(arg)
      case Parsed(toks) => Outcome(Counted(|ClassKeys(store, toks[0])|), store, false)
      case NoSuchClass => Outcome(Failed(ClassDoesntExist), store, false)
      case IndexError => Outcome(Crashed, store, false)
      case NoClassName => Outcome(Failed(ClassNameMissing), store, false)
  }
}
