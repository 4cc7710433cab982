# cute-sh: command metadata and the deferred capability mixin, in Dafny

cute-sh turns a tagged template such as ``$`echo -n ${name}` `` into a command
value. The value resolves its argument vector at once. It starts a process
on the first read of any property other than its metadata (`args`, `in`,
`with`, `toString`) and the members every object inherits. That covers the
stream and promise members, but also `toJSON` and symbol-keyed reads such as
`Symbol.toPrimitive`, which string coercion performs. This project models
the two pure parts of that library:

- **Command metadata** (`src/index.ts`): the interpolated `Args` union and
  how `parse` flattens it; the `reduce` that interleaves the tokenised
  literal segments with the flattened arguments; the default options; the
  `in` and `with` derivations; and the `toString` display text.
- **The deferred capability mixin** (`src/Lazy.ts`): a proxy over a base
  property bag. A property whose base value is truthy is read from the base.
  Any other property runs the initializer once, memoises its result, and is
  read from that instance. Functions come back bound to their owner.

Files and modules:

| file | module | contents |
|---|---|---|
| `wrappers.dfy` | `Wrappers` | `Option` |
| `decimal.dfy` | `Decimal` | the decimal text of integer numbers and a reader for it |
| `command.dfy` | `Command` | `Arg`, `Options`, `Sh`; `Parse`, `Argv`, `ResolveArgs`, `MakeSh`, `Dollar`, `In`, `With` |
| `command_laws.dfy` | `CommandLaws` | laws of flattening, resolution and option derivation; the test-suite examples |
| `display.dfy` | `Display` | `toString` (`ToString`, `Escape`) and a reader `ReadDisplay` that inverts it |
| `lazy.dfy` | `Lazy` | JavaScript truthiness, the functional `Step`/`Run` state machine, and the `LazyProxy` class |
| `sh_view.dfy` | `ShView` | the command value as two stacked mixins: metadata over the stream proxy, which spawns |

Modelling choices:

- The shell-word tokenizer `parseArgsStringToArgv` comes from a library outside
  this repository. Every operation that needs it takes it as a parameter
  `tokenize: string -> seq<string>`, and the model assumes only that it is a
  pure function. The examples from the test suite state as preconditions
  the few tokenizer results they rely on.
- `templateArgs[i]` past the end of the array reads as `undefined`. So
  `ArgAt` yields `Undefined` there, and the last literal segment of a
  template literal contributes only its tokens.
- A command value `Sh` keeps its template, its template arguments and its
  options next to the resolved `args`. `in` and `with` rebuild from the
  template, as the source does. The predicate `Resolved` states that `args`
  is what the template resolves to. `MakeSh` always establishes it.
- Property reads follow ordinary objects: an own property first, then the
  members every object inherits from `Object.prototype` (`valueOf`,
  `constructor`, `hasOwnProperty`, ...), then `undefined`. The inherited
  members are functions and so truthy. A read of `valueOf` is therefore
  answered by the base and never runs the initializer.
- Property keys are `Key` values: a string `Name` or a `Symbol`. No base
  answers a symbol, since neither base object nor `Object.prototype` has
  symbol-keyed members. So a symbol read such as `Symbol.toPrimitive` or
  Node's inspection hook falls through to the instance.
- The proxy's memo is a `State(instance, initCalls)` value. `Step` is one
  `get` trap and `Run` is a sequence of reads. The class `LazyProxy` holds
  the memo in a field and a ghost call counter, and its `Get` method is
  proved to follow `Step`. The initializer is a function `() -> Bag`. Its
  side effects (spawning a process) are what `initCalls` counts.
- A command value stacks two mixins (src/index.ts:56 and 89-102). The outer
  one's initializer, `() => stream`, only hands over the stream proxy that
  was built with the command. The spawn is the stream proxy's initializer,
  and it runs when the outer trap reads a property from that proxy.
  `ShStep` composes the two layers. A function read through both layers
  keeps the receiver of its first binding, because binding a bound function
  again does not change it.
- JavaScript values are reduced to what truthiness and binding need:
  `undefined`, `null`, booleans, integer numbers, `NaN`, strings, objects and
  functions. An object or function is an opaque identity.
- The display text `toString` is not injective once the executable holds a
  space: `["a", "b"]` and `["a \"b\""]` both display as `a "b"`. The reader
  `ReadDisplay` also stops short of arguments that end in a backslash,
  because it takes the `\"` before the closing quote as an escaped quote.
  That is a limit of the reader, not an ambiguity of the text.
  `TrailingBackslashNotReadBack` shows such a case. `ToString` promises the
  read-back for `Readable` vectors: no space in the executable and no later
  argument ending in a backslash.

## Model

| member | source | states |
|---|---|---|
| Command.Parse | src/index.ts:15-33 | `undefined` gives no token; a string gives exactly itself as one token; a number within 2^53 in magnitude gives one token that reads back as the number; a nested command gives its `args` |
| Command.Argv | src/index.ts:47-54 | the left fold over the template equals the in-order concatenation of each segment's tokens and its argument's tokens |
| CommandLaws.ParseUndefinedIsEmpty | src/index.ts:16-18 | an `undefined` argument contributes no tokens |
| CommandLaws.ParseStringVerbatim | src/index.ts:20-22 | a string argument is exactly one token, equal to the string, however many spaces or quotes it holds |
| CommandLaws.ParseNumberDecimal | src/index.ts:24-26 | a number argument within 2^53 in magnitude is one token, and that token reads back as the number |
| Decimal.IntToString | src/index.ts:25 | for an integer within 2^53 in magnitude, the text is `0` for zero; otherwise it starts with `-` exactly for negatives, followed by digits with no leading zero |
| Decimal.IntToStringRoundTrip | src/index.ts:25 | reading the decimal text of any integer within 2^53 in magnitude gives back that integer |
| Decimal.IntToStringInjective | src/index.ts:25 | distinct numbers never print as the same token |
| CommandLaws.ParseAllAppend | src/index.ts:28-30 | flattening the concatenation of two arrays gives the concatenation of their flattenings |
| CommandLaws.ParseArrayInOrder | src/index.ts:28-30 | item `i` of an array contributes its tokens between those of the items before and after it |
| CommandLaws.ParseArrayLength | src/index.ts:28-30 | a flattened array has as many tokens as its items have in total |
| CommandLaws.ParseStrings | src/index.ts:28-30 | an array of strings flattens to exactly those strings, in order |
| CommandLaws.ParseNestedIsArgs | src/index.ts:32 | a nested command contributes its resolved `args`, which differ from its one-token display text whenever it has two or more tokens |
| CommandLaws.NestedSameAsDirect | src/index.ts:32 | interpolating a command equals interpolating the array of its arguments |
| Command.ResolveArgs | src/index.ts:47-54 | the accumulating loop yields, in template order, each literal segment's tokens followed by its argument's tokens |
| CommandLaws.ResolveArgsIsArgv | src/index.ts:47-54 | the loop computes the vector that a command built from that template stores as `args` |
| CommandLaws.LastSegmentTokensOnly | src/index.ts:47-54 | in a template literal the final segment has no argument and adds only its tokens |
| CommandLaws.OneInterpolation | src/index.ts:47-54 | a template with one slot resolves to the prefix tokens, the flattened argument and the suffix tokens |
| CommandLaws.EscapeArgsExample | src/index.spec.ts:41-44 | `Hello "Mr White"` stays one argument after `echo -n` |
| CommandLaws.NestedExample | src/index.spec.ts:46-49 | a nested command splices in its arguments `Hello` and `world of "sh"` |
| CommandLaws.ArrayExample | src/index.spec.ts:51-54 | `['Hello', 'world']` becomes two arguments |
| Command.MakeSh | src/index.ts:40-54 | a command built from a template stores, as `args`, each literal segment's tokens followed by its argument's tokens in template order, and keeps the options it was given |
| Command.Dollar | src/index.ts:105-108 | `$` passes no options, so the command gets the defaults of lines 43-45: an empty environment and no working directory |
| Command.In | src/index.ts:91-94 | `in(cwd)` sets `cwd` and keeps the environment, the template and the argument vector |
| Command.With | src/index.ts:95-98 | `with(env)` sets the environment to exactly `env` and keeps `cwd`, the template and the argument vector |
| CommandLaws.InLastWins | src/index.ts:91-94 | of two chained `in` calls only the last one matters |
| CommandLaws.WithReplaces | src/index.ts:95-98 | of two chained `with` calls only the last environment survives; no key of the first that the second lacks remains |
| CommandLaws.InWithCommute | src/index.ts:91-98 | `in` and `with` commute |
| CommandLaws.DerivedKeepArgs | src/index.ts:89-98 | commands derived from a `$` command keep its vector and carry exactly the derived options |
| CommandLaws.WithOverrideExample | src/index.spec.ts:117-126 | overriding `{hello, something}` with `{hello: moon}` leaves just `hello=moon` |
| Display.Escape | src/index.ts:100 | escaping adds one backslash per quote; a text without quotes is unchanged; every quote in the result is preceded by a backslash |
| Display.EscapeRoundTrip | src/index.ts:100 | turning each `\"` back into `"` recovers the original argument |
| Display.ToString | src/index.ts:99-101 | the text is empty for an empty vector; it begins with the executable, bare; a one-token vector shows as that token; for a vector with no space in the executable and no later argument ending in a backslash, the text reads back to the vector |
| Display.DisplaySnoc | src/index.ts:99-101 | each further argument appends a single space and its quoted, escaped form |
| Display.TrailingBackslashNotReadBack | src/index.ts:99-101 | a later argument ending in a backslash displays so that its closing quote reads as escaped |
| Lazy.Truthy | src/Lazy.ts:9 | a value is truthy exactly when it is none of `undefined`, `null`, `false`, `0`, `NaN` and `""` |
| Lazy.Step | src/Lazy.ts:7-22 | one read returns what the combined object holds, keeps the memo consistent, never initialises for a truthy base property and leaves the instance built otherwise |
| Lazy.Run | src/Lazy.ts:5-22 | a sequence of reads keeps the memo consistent and yields one result per read |
| Lazy.RunState | src/Lazy.ts:17 | after a run from an unbuilt memo, the initializer has run once if some read fell through, and not at all otherwise |
| Lazy.InitAtMostOnce | src/Lazy.ts:17 | the initializer runs at most once over any sequence of reads |
| Lazy.Laziness | src/Lazy.ts:9-17 | the instance stays unbuilt exactly when every read hits a truthy base property |
| Lazy.RunReadsMergedView | src/Lazy.ts:9-22 | each read yields the base's value bound to the base, or the instance's value bound to the instance |
| Lazy.BaseHit | src/Lazy.ts:9-14 | a truthy base property is returned from the base, bound to it, and leaves the memo untouched |
| Lazy.FalsyFallsThrough | src/Lazy.ts:9-18 | a base property that is present but falsy behaves as if absent: it is read from the instance, which is then built |
| Lazy.FalsyOwnShadowsInherited | src/Lazy.ts:9-18 | an own falsy `valueOf` shadows the inherited one and builds the instance, while a bare object answers `valueOf` from its base |
| Lazy.InstanceIsCached | src/Lazy.ts:17 | once the instance is built, later reads neither rebuild nor replace it |
| Lazy.LazyProxy.constructor | src/Lazy.ts:1-5 | a new proxy holds its base and initializer, with the memo empty and no initializer call yet |
| Lazy.LazyProxy.Get | src/Lazy.ts:7-22 | the `get` trap updates the memo and returns exactly what the functional `Step` prescribes, keeping the memo consistent |
| ShView.ShBase | src/index.ts:89-101 | the outer base answers a property truthily exactly when it is one of `args`, `in`, `with`, `toString` or an inherited member, even when `args` is empty |
| ShView.ShStep | src/index.ts:56-102 | a read of the command value leaves both memos alone when the outer base answers it; otherwise it passes the read to the stream proxy, which spawns, and the result is the spawned handle's property |
| ShView.ShRun | src/index.ts:89-102 | a sequence of reads of the command value keeps both memos consistent and yields one result per read |
| ShView.ShRunState | src/index.ts:56-102 | after a run, the process has been spawned once if some read went past the metadata and inherited members, and not at all otherwise |
| ShView.MetadataReadsDoNotSpawn | src/index.ts:89-102 | reads of metadata and inherited members only leave both layers untouched, so nothing is spawned |
| ShView.StreamReadSpawnsOnce | src/index.ts:56-102 | a read of any other property spawns the process, exactly once over the whole run |
| ShView.SpawnsAtMostOnce | src/index.ts:56-102 | a command value spawns at most one process, and one exactly when some read goes past its metadata |
| ShView.ShRunReads | src/index.ts:56-102 | each read yields the metadata bound to the outer base, or the spawned handle's property bound to the handle |
| ShView.StreamLayerInitialises | src/index.ts:56 | the stream proxy over `{}` builds the stream exactly when some read names a member that objects do not inherit |
| ShView.StringCoercionSpawns | src/Lazy.ts:7-18 | the symbol-keyed read that string coercion performs is answered by neither base, so it spawns the process |
| ShView.InheritedReadDoesNotSpawn | src/Lazy.ts:9 | reading `valueOf` from a command value spawns nothing |
| ShView.SplitCommand | src/index.ts:57 | the executable and its arguments recompose the vector; an empty vector yields no executable |

## Left out

- Process spawning, stdio piping, and the effect of `cwd` and `env` on a
  real process (src/index.ts:59-63): operating-system I/O. `SplitCommand` is
  as far as the model goes. `spawn` throws synchronously for an empty vector
  and for an empty executable (``$`${''} x` ``), among other invalid
  arguments. The assignment at src/Lazy.ts:17 then never completes, so the
  next fall-through read runs the initializer again. No process starts in
  those cases, but the initializer then runs more than once. The model's
  initializer always returns.
- The duplex stream pairing, `.pipe`, stream events, the order of error,
  close and `end()` on exit (src/index.ts:68-77): event-driven stream
  plumbing.
- The promise layer: buffering stdout and stderr, UTF-8 decoding, trimming
  the error message (src/index.ts:65-66, 79-86). This is asynchronous I/O
  and byte decoding. That layer (src/index.ts:79) is a third mixin, over
  the duplex stream. The generic `Lazy` laws apply to it, but `ShStep`
  stops at the spawned handle and treats it as a plain bag.
- The internals of `parseArgsStringToArgv`: an external library, taken as an
  arbitrary pure function.
- JavaScript `Proxy` mechanics and `Function.prototype.bind`: replaced by an
  explicit lookup and an owner tag.
- `instance ?? init()` would call the initializer again if it returned
  `null` or `undefined`. The initializer's type only allows objects, so the
  model's initializer always returns a bag.
- Command.In / Command.With: arrays and the `env` object are modelled as
  immutable values. The source re-runs `parse` over the caller's
  `templateArgs` and stores the caller's `env` by reference. So a caller
  who mutates an interpolated array after building a command gets a
  different vector from `in`/`with`, and mutating `env` changes the
  derived command. The model promises the unchanged vector only for
  unmutated arguments.
- Lazy.Lookup: the only prototype modelled is `Object.prototype`. Members
  that a stream inherits from its own classes count as part of the bag the
  initializer returns.
- Decimal.IntToString: covers integers up to 2^53 in magnitude, where
  JavaScript prints the exact digits. Above that it prints the shortest
  digits that identify the double (2^60 prints as `1152921504606847000`),
  and from 1e21 it uses exponent form. Fractions, `NaN` and infinities are
  floating-point formatting too. `Num` therefore holds a `SafeInt` only.
- Lazy.InitAtMostOnce and ShView.SpawnsAtMostOnce: they assume the
  initializer returns. One that throws, like `spawn` on invalid arguments,
  leaves the memo empty and runs again on the next read.
- Lazy.Value: symbols, bigints and `-0` are not among the modelled values.
  Their truthiness follows the same rule.
