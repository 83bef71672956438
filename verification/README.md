# HBNB console — a Dafny model of the command interpreter

This project models the command interpreter of the AirBnB clone
(`console.py`, class `HBNBCommand`). The interpreter reads a line,
rewrites the object-dot-method form `Cls.method(params)` into the
positional form `method Cls args` (`precmd`), and dispatches it to one of
the handlers `create`, `show`, `destroy`, `all`, `update`, `count`,
`quit` and `EOF`. The handlers work on the object store: a map from keys
`"<Class>.<id>"` to instances.

Every handler is a pure function `(store, arg) -> Outcome(reply, store', stop)`.
`create` takes one more parameter: the identifier the new instance gets,
which the program draws from `uuid.uuid4()`.

- `reply` is what the handler prints: an error message, a new id, an
  instance, a listing, a count, or nothing.
- `store'` is the successor store.
- `stop` says whether the command loop ends.

The model has five modules:

- `Text` (`text.dfy`) holds the string operations the console uses: Python's `str.strip()` with
  the exact `str.isspace` character set, the `\w` class, `str.replace(", ", " ")`,
  a whitespace tokeniser that stands in for `shlex.split`, and
  `str(k).split(".")[0]`.
- `Store` (`store.dfy`) holds the class table `c_names`, entities, keys, the per-class
  selection used by `all`/`count`, and the store invariant `WellFormed`.
- `Console` (`console.dfy`) holds `precmd` (as `MatchDot`/`PreCmd`), `__get_class_args`
  (as `GetClassArgs`), and every `do_*` handler, plus `emptyline`.
- `Properties` (`properties.dfy`) holds the lemmas that relate several commands.
- `Interpreter` (`interpreter.dfy`) composes `precmd` with the line parsing and dispatch that
  `HBNBCommand` inherits from the standard `cmd.Cmd` class. A `Session`
  runs lines one turn at a time until a turn stops. A `CompleteSession`
  adds the `EOF` line that `cmdloop` runs at end of input.

Behaviour of the code that the model keeps:

- The regular expression `^(\w+)\.(\w+)\((.*)\)$` also matches a line that
  ends in one extra `"\n"`, because `$` matches just before a final line
  feed. `MatchDot` models that.
- `precmd` leaves a trailing space when the parentheses are empty
  (`"User.all()"` becomes `"all User "`). `cmd.Cmd` then strips it.
- A leading `", "` in the parameters becomes a leading space in the
  argument text (`RewrittenArgs` is not always trimmed). That space lands
  inside the line, after `Cls `: `User.show(, a)` becomes `show User  a`,
  and the handler receives `User  a` with a double space. The tokeniser
  skips it like any other separator.
- `__get_class_args` indexes `s_args[0]` after checking only that the raw
  argument is non-empty. An argument made only of blanks raises `IndexError`.
  The model has that outcome (`IndexError` / `Crashed`).
  `InterpretNeverCrashes` proves it cannot be reached through the
  interpreter, because `cmd.Cmd` strips every argument. In the program the
  exception would end `cmdloop`. The model lets the loop run on after
  `Crashed` (`stop` is false), which is harmless because no turn reaches it.
- `create` compares the whole raw argument with the class table. It does
  not tokenise. So `create User extra` is "class doesn't exist", while
  `show User extra` looks only at the first token.

## Model

| member | source | states |
|---|---|---|
| `Text.Strip` | console.py:57 | `params.strip()` yields text with no whitespace at either end. It is empty exactly when the input is all whitespace. |
| `Text.TrimLeft` | console.py:57 | The leading-strip half of `strip()`: the result is the suffix left after every leading whitespace character is dropped. |
| `Text.TrimRight` | console.py:57 | The trailing-strip half of `strip()`: the result is the prefix left after every trailing whitespace character is dropped. |
| `Text.StripUnique` | console.py:57 | Characterises `strip()`: trimmed text between two runs of whitespace is exactly what `strip()` returns. |
| `Text.StripIdempotent` | console.py:57 | Stripping twice is stripping once. |
| `Text.ReplaceCommaSpace` | console.py:59 | `params.replace(", ", " ")` never makes the text longer. Its meaning is pinned down by `ReplaceCommaSpaceIsDrop`. |
| `Text.ReplaceCommaSpaceIsDrop` | console.py:59 | `replace(", ", " ")` equals an independent definition: delete every comma that a space follows, keep everything else. |
| `Text.ReplaceWithoutComma` | console.py:58-59 | Parameters without commas pass through the replacement unchanged. |
| `Text.ReplaceKeepsEnds` | console.py:57-59 | The replacement keeps the last character. It changes the first only when the text starts with `", "`. |
| `Text.Tokenize` | console.py:198 | The whitespace stand-in for `shlex.split` yields only non-empty tokens free of separators. |
| `Text.TokenizeJoin` | console.py:198 | The tokeniser that stands in for `shlex.split` inverts joining with spaces. Tokens joined by spaces split back into the same tokens. |
| `Text.TokenizeKeepsText` | console.py:198 | No character is lost or invented by tokenising. The tokens put together are the argument with its separators deleted. |
| `Text.TokenizeEmpty` | console.py:198-200 | An argument yields no tokens exactly when it consists only of separators. In that case `s_args[0]` fails. |
| `Text.BeforeFirstDotOfJoin` | console.py:138 | `str(k).split(".")[0]` of `"Cls.id"` is `Cls` when `Cls` has no dot. |
| `Text.BeforeFirstDot` | console.py:138 | `split(".")[0]` is the longest dot-free prefix of the key. It is followed by a dot unless it is the whole key. |
| `Text.SolidStartHasToken` | console.py:198-200 | Text that starts with a non-blank character has a first token. |
| `Text.WordPrefixLength` | console.py:54 | The longest run of `\w` characters at the start of a line: every character in it is a word character, and the next one is not. |
| `Store.NewEntity` | console.py:74-76 | A new instance has the class that was asked for, and its `id` attribute is the printed identifier. |
| `Store.Key` | console.py:92 | `"{}.{}".format(cls, id)` is the class, a dot, then the identifier. |
| `Store.KeyClass` | console.py:138 | The class part of a key is its dot-free prefix, which the key's first dot follows. |
| `Store.KeyInjective` | console.py:92 | For known classes, equal keys mean the same class and the same identifier, so distinct instances never share a key. |
| `Store.KeyClassOfKey` | console.py:92 | A key built as `"{}.{}".format(cls, id)` for a known class reads back as that class. |
| `Store.ClassKeys` | console.py:138 | In a well-formed store, the keys whose text before the first dot is `Cls` are exactly the keys of the instances of class `Cls`. There are none for a name outside the class table. |
| `Store.Select` | console.py:135-139 | The entries `all Cls` lists form a sub-map of the store. In a well-formed store they are exactly the instances of class `Cls`. |
| `Store.SelectSize` | console.py:135-139 | `all Cls` lists as many entries as there are keys of class part `Cls`. |
| `Console.Message` | console.py:67-201 | Every error line is the message framed by `** ` and ` **`. |
| `Console.MessageInjective` | console.py:67-201 | The six error lines are distinct, so the printed line identifies the failed check. |
| `Console.PreCmd` | console.py:48-62 | A line that does not match the dot-form pattern comes back unchanged. The result never matches the pattern. |
| `Console.MatchDot` | console.py:54 | Sound matching of `^(\w+)\.(\w+)\((.*)\)$`: every match has word-only class and method groups and newline-free parameters. The line is rebuilt from the groups, with at most one final line feed. |
| `Console.MatchDotComplete` | console.py:54 | Every line `Cls.method(params)`, with or without one final line feed, matches, and its groups are the parts it was built from. |
| `Console.MatchParams` | console.py:54 | `(.*)\)$` after the opening parenthesis captures newline-free text followed by `)` and at most one line feed. |
| `Console.MatchAfterDot` | console.py:54 | `(\w+)\((.*)\)$` after the dot captures a word and newline-free parameters, and the rest of the line is rebuilt from them. |
| `Console.PreCmdRewrites` | console.py:54-60 | A dot-form line becomes `method + " " + Cls + " " + args`. |
| `Console.PreCmdPassesThrough` | console.py:62 | A line that is not of the dot form is returned unchanged. |
| `Console.PreCmdIdempotent` | console.py:48-62 | A rewritten line is never rewritten again. |
| `Console.PositionalNeverMatches` | console.py:60 | The positional text `method Cls args` never matches the dot-form pattern. |
| `Console.RewrittenArgs` | console.py:57-59 | The argument text is empty exactly when the parameters are all whitespace. Otherwise it ends in a non-whitespace character. |
| `Console.GetClassArgs` | console.py:189-204 | An empty argument gives "class name missing". A blank non-empty argument raises. An unknown first token gives "class doesn't exist". Otherwise the result is the token list, headed by a known class. |
| `Console.GetClassArgsOfJoin` | console.py:198-204 | Tokens joined by spaces come back as the same tokens, or as "class doesn't exist" when the first is not a class. |
| `Console.Refusal` | console.py:194-202 | A missing argument prints "class name missing". An unknown class prints "class doesn't exist". The reply is a crash exactly when there was no first token (`IndexError`). |
| `Console.Quit` | console.py:35-37 | `quit` prints nothing, keeps the store, and ends the loop. |
| `Console.Eof` | console.py:39-42 | The `EOF` command, which `cmdloop` runs at end of input, prints a line break, keeps the store, and ends the loop. |
| `Console.EmptyLine` | console.py:44-46 | An empty line prints nothing, keeps the store, and does not end the loop. |
| `Console.Create` | console.py:64-76 | An empty argument gives "class name missing". An argument that is not exactly a class name gives "class doesn't exist", with the store unchanged. Otherwise the id is printed, the new instance is stored under `Cls.id`, and every other entry is unchanged. |
| `Console.Show` | console.py:78-98 | The store never changes. The class check comes first, then "instance id missing" with fewer than two tokens, then "no instance found" when `Cls.id` is absent. Otherwise the reply is the stored instance. |
| `Console.Destroy` | console.py:100-119 | Errors come in the same order as `show`, and none of them changes the store. On success exactly the key `Cls.id` is removed and every other entry is unchanged. |
| `Console.Update` | console.py:141-150 | The class check comes first, and a refused class leaves the store unchanged. After that, `update` is the token-level `SetAttribute`. |
| `Console.SetAttribute` | console.py:147-169 | Errors come in this order: id missing, no instance, attribute name missing, value missing. On success attribute `arr[2]` of `Cls.id` becomes `arr[3]`. The other attributes, the class, and every other entry are unchanged. |
| `Console.All` | console.py:121-139 | The store never changes. No argument lists every instance. Otherwise the class check runs, and the listing holds exactly the entries whose key's class part is the first token. |
| `Console.Count` | console.py:171-187 | The store never changes. No argument gives the size of the store. Otherwise the class check runs, and the count is the number of keys whose class part is the first token. |
| `Properties.ClassListIsClassNames` | console.py:25-33 | The list of classes summed over by `CountsAddUp` holds each class of `c_names` exactly once. |
| `Properties.ClassNameIsToken` | console.py:25-33 | No class name in the table contains whitespace. |
| `Properties.TokenizeClassName` | console.py:25-33 | A class name on its own tokenises to itself. |
| `Properties.TokenizePair` | console.py:198 | `"Cls id"` tokenises to `[Cls, id]`. |
| `Properties.CreateTakesWholeArgument` | console.py:66-72 | `create Cls extra` is "class doesn't exist" and changes nothing. `show Cls extra` does pass the class check. |
| `Properties.CreateThenShow` | console.py:74-98 | After `create Cls` with id `i`, `show Cls i` prints the new instance. |
| `Properties.DestroyThenShow` | console.py:110-119 | After a successful `destroy`, `show` with the same argument reports "no instance found". |
| `Properties.DestroyRemovesOne` | console.py:110-119 | `destroy Cls id` on a present key removes exactly that key. |
| `Properties.UpdateThenShow` | console.py:151-169 | After a successful `update`, `show` of the same instance prints the attribute with its new string value. |
| `Properties.UpdateIgnoresExtraTokens` | console.py:167-169 | Tokens after the fourth have no effect on `update`. |
| `Properties.UpdateErrorOrder` | console.py:143-165 | For any token list, `update` reports class unknown, id missing, no instance, attribute missing, and value missing in that order. Every error leaves the store unchanged. |
| `Properties.AllAgreesWithCount` | console.py:121-187 | `all` and `count` accept and refuse the same arguments with the same message. When they accept, the count equals the number of entries listed. |
| `Properties.ClassCountIs` | console.py:180-187 | `count Cls` prints the number of keys whose class part is `Cls`. |
| `Properties.ClassKeysInsert` | console.py:74-75 | Storing a new key adds one to the count of its class and to no other class. |
| `Properties.ClassKeysRemove` | console.py:118 | Removing a key takes one off the count of its class and off no other class. |
| `Properties.CountAfterCreate` | console.py:171-187 | A `create` with a fresh id adds one to the plain count and to its own class's count. Every other class's count is unchanged. |
| `Properties.CountAfterDestroy` | console.py:171-187 | A successful `destroy` takes one off the plain count and off the destroyed class's count. Every other class's count is unchanged. |
| `Properties.SumCountsIsUnion` | console.py:180-187 | The per-class counts over distinct classes add up to the number of keys of those classes. |
| `Properties.CountsAddUp` | console.py:180-187 | In a well-formed store the counts of the seven classes add up to the plain `count`. |
| `Properties.CreateKeepsWellFormed` | console.py:74-75 | `create` keeps every instance under a key whose class part is its known class. |
| `Properties.DestroyKeepsWellFormed` | console.py:118 | `destroy` keeps the store well formed. |
| `Properties.UpdateKeepsWellFormed` | console.py:167-169 | `update` keeps the store well formed. |
| `Interpreter.ParseLine` | console.py:44-46 | The inherited line parser sends exactly the blank lines to `emptyline`. Any command argument it produces is stripped. |
| `Interpreter.Dispatch` | console.py:35-187 | Only `quit` and `EOF` end the loop. Only `create`, `destroy` and `update` can change the store. |
| `Interpreter.OneCmd` | console.py:35-42 | A parsed line ends the loop exactly when its command is `quit` or `EOF`, and then the store is unchanged. |
| `Interpreter.Interpret` | console.py:35-62 | One turn, `precmd` then `onecmd`, stops exactly when the rewritten line is a `quit` or `EOF` command. Whether it stops never depends on the store, and a stopping turn leaves the store unchanged. |
| `Interpreter.BlankLineDoesNothing` | console.py:44-46 | A blank line prints nothing, keeps the store, and does not repeat the previous command. |
| `Interpreter.DispatchNeverCrashes` | console.py:194-200 | A stripped argument never reaches the `IndexError` of `__get_class_args`. |
| `Interpreter.OneCmdNeverCrashes` | console.py:194-200 | No parsed line reaches that `IndexError`. |
| `Interpreter.InterpretNeverCrashes` | console.py:194-200 | No input line reaches that `IndexError`. |
| `Interpreter.CallArgTrimmed` | console.py:57-60 | The class-and-arguments text of a rewritten line has no whitespace at either end. |
| `Interpreter.PositionalStrips` | console.py:60 | Stripping the rewritten line removes only the trailing space left by empty parentheses. |
| `Interpreter.ParsePositional` | console.py:60 | The rewritten line is read as the command `method` with argument `Cls args`. |
| `Interpreter.ParseNameArg` | console.py:60 | A line that strips to `name args` is the command `name` with argument `args`. |
| `Interpreter.DotFormRunsHandler` | console.py:54-62 | `Cls.method(params)` runs the same handler on the same argument as `method Cls args`. |
| `Interpreter.DispatchKeepsWellFormed` | console.py:64-169 | Every handler keeps the store well formed. |
| `Interpreter.OneCmdKeepsWellFormed` | console.py:64-169 | Every parsed line keeps the store well formed. |
| `Interpreter.InterpretKeepsWellFormed` | console.py:64-169 | Every turn keeps the store well formed. |
| `Interpreter.Run` | console.py:207-208 | A run of turns gives at most one reply per line. It replies to every line unless a turn stopped it. |
| `Interpreter.RunStopsAtFirst` | console.py:207-208 | When stopping depends on the line alone, the loop stops exactly when some line stops it. It stops at the first such line, after replying to that line and to every line before it. |
| `Interpreter.RunReplies` | console.py:207-208 | The i-th reply of a run is the step's reply to the i-th line, on the store the earlier lines left. |
| `Interpreter.StoreAfterStep` | console.py:207-208 | After a first line that does not stop, the loop carries on from the store that line left. |
| `Interpreter.Session` | console.py:207-208 | Over the given lines, the loop stops exactly when one of them is a `quit` or `EOF` command. It stops at the first such line, after replying to it and to every line before it. With no such line it replies to every line. |
| `Interpreter.SessionReplies` | console.py:207-208 | The i-th reply of a session is what the interpreter replies to the i-th line, on the store the earlier lines left. |
| `Interpreter.SessionKeepsWellFormed` | console.py:207-208 | A session that starts from a well-formed store, such as the empty one, ends in a well-formed store. |
| `Interpreter.PreCmdOfWord` | console.py:54-62 | A bare word has no dot, so `precmd` passes it through. |
| `Interpreter.ParseWord` | console.py:39-42 | A bare word is the command it names, with an empty argument. |
| `Interpreter.EofLine` | console.py:39-42 | The line `EOF` prints a line break, keeps the store, and stops the loop. |
| `Interpreter.RunEndsWith` | console.py:207-208 | A run whose last line stops it always stops. It stops at the first stopping line before that one if there is one; otherwise it stops at the last line, with that line's reply. |
| `Interpreter.EndOfInput` | console.py:39-42 | Input followed by end of input always stops. It stops at the first `quit` or `EOF` line, or else after replying to every line and then printing a line break. |
| `Interpreter.CompleteSession` | console.py:207-208 | `cmdloop` on a finite input always stops. It stops at the first `quit` or `EOF` line, or at end of input after replying to every line and printing a line break. |

## Left out

- Persistence: `storage.save()` and the reload of the JSON file live in `models/`, which is not part of this model. `save` is a no-op on the map, and reload is not modelled.
- `Console.Create`: the identifier is a parameter instead of `uuid.uuid4()`. If it collided with an existing key, the entry would be overwritten, as in Python. The freshness the uuid gives is assumed only where a lemma needs it (`CountAfterCreate`).
- Timestamps: `created_at`/`updated_at` and the refresh done by `obj.save()` are nondeterministic and live in `models/base_model.py`, which is not part of this model. This also means the model does not show that `save()` overwrites an `update` of `updated_at`.
- Instance construction and `__str__`: `models/base_model.py` is not part of this model. Replies carry the instance itself instead of its printed form, and the `print` formatting of lists is not modelled.
- `Console.All`: the listing is a map, so the order of the printed list (dictionary insertion order) is not modelled.
- `Text.Tokenize`: it splits on the `shlex` whitespace characters only. Quoting, escaping, and the `ValueError` on an unclosed quote are library behaviour that is not modelled. So a quoted dot-form argument such as `User.show("1")` keeps its quotes in the model.
- `Text.IsWordChar`: `\w` is taken as ASCII letters, digits and `_`. Python's Unicode letters and digits are not modelled. This class coincides with `cmd.Cmd.identchars`.
- `Console.SetAttribute`: `setattr` is modelled as a plain attribute-bag update, so the crashes some names cause are not modelled. `__class__` raises `TypeError` in `setattr` itself. `save` replaces the method with a string, so `obj.save()` at console.py:169 raises `TypeError`. The model replies `Silent` in both cases.
- `Interpreter.Session`: end of input is not a line of the session, so a session over lines without `quit` or `EOF` models only a prefix of a `cmdloop` run. `CompleteSession` appends the `EOF` line that `cmdloop` runs at end of input, and proves that the complete run stops.
- `help`: the command is dispatched and its reply carries the topic. The help text generated from docstrings is not modelled.
- `cmd.Cmd` plumbing: the prompt, intro, completion, `lastcmd` and the `!` shell escape beyond its "unknown syntax" reply are not modelled.
- tests/test_models/test_user.py only checks attributes of `User`, whose source is not part of this model.
