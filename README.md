# Book strategies: a Dafny model of the command dispatcher

This project models a small Python program that applies the strategy pattern to a book. A `Book` holds
a title and a content. It has three operations, `display`, `print_book` and `serialize`, and each one
hands the fields to an interchangeable strategy object. The function `main(book, commands)` maps
string keys to strategies through three fixed tables:

- display: `console`, `reverse`
- print: `console`, `reverse`
- serialize: `json`, `xml`

It then runs an ordered list of `(action, key)` commands. A known display or print key calls the
book's method. An unknown key writes `Unknown <action> type: <key>` and the loop goes on. The first
`serialize` command with a known key returns the serialized book at once, and the later commands are
skipped. If no such command exists, `main` returns `None`. An action name other than the three does
nothing.

Modules, one per source file, plus `Wrappers` (the `Option` type) and `Output` (the standard output trace):

- `Wrappers` (wrappers.dfy): the `Option` returned by `main`.
- `Output` (output.dfy): what the program writes to standard output, as a trace of events. Each
  `print` call is one `Line` event, holding the text given to that call. A display is recorded as an abstract `Displayed(strategy, content)` event,
  because the display strategies are not part of this model.
- `Print` (print.dfy): the two print strategies. Each is a function that returns the two lines it
  writes, one line per `print` call. Content reversal is `Reverse` on `seq<char>`. A Dafny 4
  character is a Unicode scalar value, so on every string made of scalar values this reversal is
  Python's `content[::-1]` on code points.
- `Serialization` (serialization.dfy): the two serialization strategies. The serializer itself is a
  function `(strategy, title, content) -> string` supplied by the caller.
- `Books` (book.dfy): `Book` is a datatype. Python's constructor `Book(title, content)` becomes the
  datatype constructor, which stores exactly those two fields. No operation updates a field, so the
  title and content cannot change when commands run.
- `Dispatch` (dispatch.dfy): the lookup tables, and a specification function `Run` that describes
  `main` one command at a time. `Execute` is `main` as a loop with an early `return`, proved equal to
  `Run`. The lemmas state the dispatcher's guarantees about `Run`.

## Model

| member | source | states |
|---|---|---|
| `Print.Reverse` | app/print.py:19 | the reversed content has the same length as the content |
| `Print.ReverseAt` | app/print.py:19 | character i of the reversed content is character \|content\|-1-i of the content |
| `Print.ReverseInvolution` | app/print.py:19 | reversing the content twice gives back the original content |
| `Print.ConsolePrintLines` | app/print.py:11-13 | the console print makes exactly two `print` calls, and the second is given the content unchanged |
| `Print.ReversePrintLines` | app/print.py:17-19 | the reverse print makes exactly two `print` calls; the second is given a text of the content's length holding its characters back to front |
| `Print.PrintLines` | app/print.py:10-19 | whichever print strategy is chosen, it makes exactly two `print` calls |
| `Print.TitleNeverReversed` | app/print.py:11-19 | for both strategies, the first line is the strategy's heading, then the title verbatim (never reversed), then "..." |
| `Print.ReversePrintUndoesReversal` | app/print.py:11-19 | the reverse print of reversed content writes the same content line as the console print of the original |
| `Print.EmptyContentPrintsEmptyLine` | app/print.py:13-19 | empty content is accepted, and both strategies then write an empty second line |
| `Books.Book.PrintBook` | app/book.py:14-15 | print_book passes the title first and the content second: its two events are the strategy's heading with the title and "...", then the content, reversed only by the reverse strategy |
| `Books.DisplayPassesOnlyContent` | app/book.py:11-12 | the display depends on no field of the book but the content: books with equal content display alike |
| `Dispatch.Resolves` | app/main.py:31-33 | a command ends the pass exactly when it is a serialize command whose key is "json" or "xml" |
| `Dispatch.Effect` | app/main.py:19-36 | one command that does not return writes at most two events, and writes none exactly when its action is unknown or it is a resolving serialize |
| `Dispatch.EffectsOf` | app/main.py:18 | running a list of commands in turn writes at most two events per command |
| `Dispatch.Run` | app/main.py:7-36 | main returns a value only if some command is a resolving serialize, and writes at most two events per command |
| `Dispatch.ReturnedTextIsSerialization` | app/book.py:17-18 | the text main returns is the serializer's output for the book's title and content, unchanged, under the strategy of a resolving serialize command |
| `Dispatch.FirstResolved` | app/main.py:31-34 | finds the first serialize command with a known key: no command before it resolves, and it resolves unless it is the end of the list |
| `Dispatch.Execute` | app/main.py:7-36 | the loop with early return writes exactly the trace and returns exactly the value that `Run` gives |
| `Dispatch.RunIsEffectsUpToFirstSerialize` | app/main.py:18-36 | the run writes the effects of the commands before the first resolving serialize, in list order, and nothing after it; it returns that command's serialization, or None if there is none |
| `Dispatch.ResultIffSomeSerializeResolves` | app/main.py:31-34 | main returns a value exactly when some command is ("serialize", k) with k in {"json", "xml"} |
| `Dispatch.FirstSerializeDecides` | app/main.py:31-34 | the value returned is the serialization by the first resolving serialize command, and no later command writes anything |
| `Dispatch.NoSerializeRunsEverything` | app/main.py:18-36 | with no resolving serialize, every command runs in order and the result is None |
| `Dispatch.EffectsOfAppend` | app/main.py:18 | the events of a concatenated command list are those of the first part followed by those of the second |
| `Dispatch.EffectsOfSnoc` | app/main.py:18-36 | running one more command appends its events at the end of the trace |
| `Dispatch.RunAppend` | app/main.py:18-36 | commands run strictly in list order: a prefix that returns nothing writes its events first, then the rest runs as it would alone |
| `Dispatch.LaterCommandsIgnored` | app/main.py:33-34 | once a list contains a resolving serialize, appending further commands changes neither the trace nor the result |
| `Dispatch.KnownKeyRunsBookMethod` | app/main.py:19-28 | a display or print command with key "console" or "reverse" runs the book's method with the strategy that key selects (a display event carrying the book's content, or print_book's two lines), then processing continues with the next command |
| `Dispatch.UnknownKeyDiagnostic` | app/main.py:19-36 | an unknown display, print or serialize key writes exactly "Unknown <action> type: <key>", and processing continues with the next command |
| `Dispatch.UnknownCommandIsNoOp` | app/main.py:19-36 | an action other than display, print and serialize writes nothing and changes nothing |
| `Dispatch.BogusDisplayScenario` | app/main.py:19-24 | [("display", "bogus")] writes "Unknown display type: bogus" and returns None |
| `Dispatch.ConsolePrintScenario` | app/main.py:25-28 | [("print", "console")] on Book("T", "abc") writes "Printing the book: T..." and then "abc" |
| `Dispatch.ReversePrintScenario` | app/main.py:25-28 | [("print", "reverse")] on Book("T", "abc") writes "Printing the book in reverse: T..." and then "cba" |

## Left out

- Display strategies: their text is not modelled, because app/display.py is not part of this model. A display is a `Displayed(strategy, content)` event.
- Serialization text: the JSON and XML output come from Python's `json` and `xml.etree` libraries, whose escaping rules are not part of this model. The serializer is a function parameter of `Run` and `Execute`, so the round-trip properties of JSON and XML are not stated.
- Standard output: lines and display calls are appended to a trace instead of being written. A `Line` event is one `print` call, so a title or content holding a newline gives one event where the terminal shows several lines. The newline `print` adds is not part of the line texts.
- Lone surrogate code points (U+D800 to U+DFFF): a Python string may hold them, a Dafny `char` cannot, so such titles and contents are outside the model. Writing them to a UTF-8 standard output makes the source's `print` raise an error, which the model does not capture.
- The `__main__` block (app/main.py:39-41): a fixed sample run and its `print`.
- The abstract base classes and the truthiness test on strategy objects (app/main.py:21, 27, 33): strategy instances are always true, so the test is modelled as key presence in the table.
- Python's dynamic typing: commands are modelled as pairs of strings, which is what `main` is declared to take.
