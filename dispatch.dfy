/**
 * The command dispatcher main(book, commands): three fixed lookup tables from
 * strategy keys to strategies, and one pass over the command list. A display
 * or print command with a known key runs the book's method; an unknown key
 * writes a diagnostic line and the pass goes on; the first serialize command
 * with a known key returns the serialized book and ends the pass; a command
 * name that is none of the three does nothing.
 */
module Dispatch {
  import opened Wrappers
  import opened Output
  import opened Print
  import opened Serialization
  import opened Books

  /** A command: the action name and the strategy key. */
  type Command = (string, string)

  const DisplayMethods: map<string, DisplayMethod> :=
    map["console" := ConsoleDisplay, "reverse" := ReverseDisplay]
  const PrintMethods: map<string, PrintMethod> :=
    map["console" := ConsolePrint, "reverse" := ReversePrint]
  const SerializationMethods: map<string, SerializationMethod> :=
    map["json" := JSONSerialization, "xml" := XMLSerialization]

  /** What one pass writes, and what it returns. */
  datatype Outcome = Outcome(trace: seq<Event>, result: Option<string>)

  /** The command ends the pass: a serialize command whose key is known. */
  predicate Resolves(c: Command)
    ensures Resolves(c) <==> c.0 == "serialize" && (c.1 == "json" || c.1 == "xml")
  {
    c.0 == "serialize" && c.1 in SerializationMethods
  }

  /**
   * What a command that does not end the pass writes: at most two events, and
   * none exactly when the action is unknown or the command is a resolving
   * serialize (which returns instead of writing).
   */
  function Effect(book: Book, c: Command): (r: seq<Event>)
    ensures |r| <= 2
    ensures r == [] <==> c.0 != "display" && c.0 != "print" && (c.0 != "serialize" || Resolves(c))
  {
    var cmd, key := c.0, c.1;
    if cmd == "display" then
      if key in DisplayMethods then book.Display(DisplayMethods[key])
      else [Line("Unknown display type: " + key)]
    else if cmd == "print" then
      if key in PrintMethods then book.PrintBook(PrintMethods[key])
      else [Line("Unknown print type: " + key)]
    else if cmd == "serialize" && key !in SerializationMethods then
      [Line("Unknown serialize type: " + key)]
    else
      []
  }

  /** Everything a list of commands writes when each is run in turn. */
  function EffectsOf(book: Book, cmds: seq<Command>): (r: seq<Event>)
    ensures |r| <= 2 * |cmds|
  {
    if cmds == [] then [] else Effect(book, cmds[0]) + EffectsOf(book, cmds[1..])
  }

  /**
   * The behaviour of main, one command at a time from the front of the list.
   * A value is returned only if some command is a resolving serialize, and each
   * command writes at most two events.
   */
  function Run(book: Book, cmds: seq<Command>, serialize: Serializer): (r: Outcome)
    ensures r.result.Some? ==> exists i :: 0 <= i < |cmds| && Resolves(cmds[i])
    ensures |r.trace| <= 2 * |cmds|
  {
    if cmds == [] then
      Outcome([], None)
    else if Resolves(cmds[0]) then
      Outcome([], Some(book.Serialize(SerializationMethods[cmds[0].1], serialize)))
    else
      var rest := Run(book, cmds[1..], serialize);
      assert rest.result.Some? ==> exists i :: 0 <= i < |cmds| && Resolves(cmds[i]) by {
        if rest.result.Some? {
          var j :| 0 <= j < |cmds[1..]| && Resolves(cmds[1..][j]);
          assert Resolves(cmds[j + 1]);
        }
      }
      Outcome(Effect(book, cmds[0]) + rest.trace, rest.result)
  }

  /** The position of the first command that ends the pass, or |cmds| if none does. */
  function FirstResolved(cmds: seq<Command>): (k: nat)
    ensures k <= |cmds|
    ensures forall j :: 0 <= j < k ==> !Resolves(cmds[j])
    ensures k < |cmds| ==> Resolves(cmds[k])
  {
    if cmds == [] then 0
    else if Resolves(cmds[0]) then 0
    else 1 + FirstResolved(cmds[1..])
  }

  /**
   * main itself: the loop over the commands, writing to a trace, with the
   * early return on the first serialize command whose key is known.
   */
  method Execute(book: Book, commands: seq<Command>, serialize: Serializer)
    returns (trace: seq<Event>, result: Option<string>)
    ensures Outcome(trace, result) == Run(book, commands, serialize)
  {
    trace := [];
    var i := 0;
    while i < |commands|
      invariant 0 <= i <= |commands|
      invariant forall j :: 0 <= j < i ==> !Resolves(commands[j])
      invariant trace == EffectsOf(book, commands[..i])
    {
      ghost var before := trace;
      var cmd, methodType := commands[i].0, commands[i].1;
      if cmd == "display" {
        if methodType in DisplayMethods {
          trace := trace + book.Display(DisplayMethods[methodType]);
        } else {
          trace := trace + [Line("Unknown display type: " + methodType)];
        }
      } else if cmd == "print" {
        if methodType in PrintMethods {
          trace := trace + book.PrintBook(PrintMethods[methodType]);
        } else {
          trace := trace + [Line("Unknown print type: " + methodType)];
        }
      } else if cmd == "serialize" {
        if methodType in SerializationMethods {
          result := Some(book.Serialize(SerializationMethods[methodType], serialize));
          FirstSerializeDecides(book, commands, serialize, i);
          return;
        } else {
          trace := trace + [Line("Unknown serialize type: " + methodType)];
        }
      }
      assert trace == before + Effect(book, commands[i]);
      EffectsOfSnoc(book, commands[..i], commands[i]);
      assert commands[..i] + [commands[i]] == commands[..i + 1];
      i := i + 1;
    }
    result := None;
    NoSerializeRunsEverything(book, commands, serialize);
    assert commands[..i] == commands;
  }

  /** Running one more command adds its events at the end. */
  lemma EffectsOfSnoc(book: Book, cmds: seq<Command>, c: Command)
    ensures EffectsOf(book, cmds + [c]) == EffectsOf(book, cmds) + Effect(book, c)
  {
    EffectsOfAppend(book, cmds, [c]);
    assert [c][1..] == [];
  }

  /**
   * The whole behaviour in one statement: the pass writes what the commands
   * before the first resolving serialize write, in list order, and nothing
   * after it; it returns that command's serialization, or None when there is
   * no such command and every command has been run.
   */
  lemma {:induction false} RunIsEffectsUpToFirstSerialize(book: Book, cmds: seq<Command>, serialize: Serializer)
    ensures var k := FirstResolved(cmds);
      Run(book, cmds, serialize) == Outcome(
        EffectsOf(book, cmds[..k]),
        if k < |cmds| then Some(serialize(SerializationMethods[cmds[k].1], book.title, book.content)) else None)
  {
    if cmds != [] && !Resolves(cmds[0]) {
      RunIsEffectsUpToFirstSerialize(book, cmds[1..], serialize);
      var k := FirstResolved(cmds);
      assert cmds[..k][1..] == cmds[1..][..k - 1];
      if k < |cmds| {
        assert cmds[1..][k - 1] == cmds[k];
      }
    }
  }

  /** main returns a value exactly when some serialize command has a known key. */
  lemma ResultIffSomeSerializeResolves(book: Book, cmds: seq<Command>, serialize: Serializer)
    ensures Run(book, cmds, serialize).result.Some?
        <==> exists i :: 0 <= i < |cmds| && Resolves(cmds[i])
  {
    RunIsEffectsUpToFirstSerialize(book, cmds, serialize);
  }

  /**
   * The value returned is the serialization of the book by the strategy of the
   * first resolving serialize command, and none of the commands after it
   * writes anything.
   */
  lemma FirstSerializeDecides(book: Book, cmds: seq<Command>, serialize: Serializer, i: nat)
    requires i < |cmds| && Resolves(cmds[i])
    requires forall j :: 0 <= j < i ==> !Resolves(cmds[j])
    ensures Run(book, cmds, serialize)
      == Outcome(EffectsOf(book, cmds[..i]), Some(serialize(SerializationMethods[cmds[i].1], book.title, book.content)))
  {
    RunIsEffectsUpToFirstSerialize(book, cmds, serialize);
    assert FirstResolved(cmds) == i;
  }

  /**
   * The text main returns is the strategy's serialization of the book's title
   * and content, passed through unchanged, for the strategy named by a
   * resolving serialize command.
   */
  lemma ReturnedTextIsSerialization(book: Book, cmds: seq<Command>, serialize: Serializer)
    requires Run(book, cmds, serialize).result.Some?
    ensures exists i ::
      && 0 <= i < |cmds| && Resolves(cmds[i])
      && Run(book, cmds, serialize).result.value == serialize(SerializationMethods[cmds[i].1], book.title, book.content)
  {
    RunIsEffectsUpToFirstSerialize(book, cmds, serialize);
    var k := FirstResolved(cmds);
    assert 0 <= k < |cmds| && Resolves(cmds[k]);
  }

  /** With no resolving serialize, every command runs in order and the result is None. */
  lemma NoSerializeRunsEverything(book: Book, cmds: seq<Command>, serialize: Serializer)
    requires forall j :: 0 <= j < |cmds| ==> !Resolves(cmds[j])
    ensures Run(book, cmds, serialize) == Outcome(EffectsOf(book, cmds), None)
  {
    RunIsEffectsUpToFirstSerialize(book, cmds, serialize);
    assert cmds[..|cmds|] == cmds;
  }

  /** Events appear in the order of the commands that cause them. */
  lemma {:induction false} EffectsOfAppend(book: Book, a: seq<Command>, b: seq<Command>)
    ensures EffectsOf(book, a + b) == EffectsOf(book, a) + EffectsOf(book, b)
  {
    if a == [] {
      assert a + b == b;
    } else {
      assert (a + b)[0] == a[0];
      assert (a + b)[1..] == a[1..] + b;
      EffectsOfAppend(book, a[1..], b);
    }
  }

  /**
   * Commands run strictly in list order: a prefix that returns nothing writes
   * its events first, then the rest of the list runs as it would alone.
   */
  lemma {:induction false} RunAppend(book: Book, a: seq<Command>, b: seq<Command>, serialize: Serializer)
    requires forall j :: 0 <= j < |a| ==> !Resolves(a[j])
    ensures Run(book, a + b, serialize)
      == Outcome(EffectsOf(book, a) + Run(book, b, serialize).trace, Run(book, b, serialize).result)
  {
    if a == [] {
      assert a + b == b;
    } else {
      assert (a + b)[0] == a[0];
      assert (a + b)[1..] == a[1..] + b;
      RunAppend(book, a[1..], b, serialize);
      var tail := Run(book, a[1..] + b, serialize);
      assert Run(book, a + b, serialize) == Outcome(Effect(book, a[0]) + tail.trace, tail.result);
      assert EffectsOf(book, a) == Effect(book, a[0]) + EffectsOf(book, a[1..]);
    }
  }

  /** Nothing that follows a resolving serialize command has any effect. */
  lemma {:induction false} LaterCommandsIgnored(book: Book, a: seq<Command>, b: seq<Command>, serialize: Serializer)
    requires exists j :: 0 <= j < |a| && Resolves(a[j])
    ensures Run(book, a + b, serialize) == Run(book, a, serialize)
  {
    if !Resolves(a[0]) {
      assert (a + b)[1..] == a[1..] + b;
      var j :| 0 <= j < |a| && Resolves(a[j]);
      assert Resolves(a[1..][j - 1]);
      LaterCommandsIgnored(book, a[1..], b, serialize);
    }
  }

  /**
   * A key missing from its table writes exactly one diagnostic line naming the
   * action and the key, and the pass continues with the next command.
   */
  lemma UnknownKeyDiagnostic(book: Book, cmd: string, key: string, rest: seq<Command>, serialize: Serializer)
    requires cmd == "display" || cmd == "print" || cmd == "serialize"
    requires cmd == "serialize" ==> key != "json" && key != "xml"
    requires cmd != "serialize" ==> key != "console" && key != "reverse"
    ensures Run(book, [(cmd, key)] + rest, serialize)
      == Outcome([Line("Unknown " + cmd + " type: " + key)] + Run(book, rest, serialize).trace,
                 Run(book, rest, serialize).result)
  {
    var cmds := [(cmd, key)] + rest;
    assert cmds[0] == (cmd, key) && cmds[1..] == rest;
    assert !Resolves((cmd, key));
    assert "Unknown " + cmd + " type: " + key
      == (if cmd == "display" then "Unknown display type: "
          else if cmd == "print" then "Unknown print type: "
          else "Unknown serialize type: ") + key;
  }

  /**
   * A display or print command with a known key runs the book's method with the
   * strategy the key selects ("console" or "reverse"); the display strategy
   * receives the book's content. The pass then continues with the next command.
   */
  lemma KnownKeyRunsBookMethod(book: Book, cmd: string, key: string, rest: seq<Command>, serialize: Serializer)
    requires cmd == "display" || cmd == "print"
    requires key == "console" || key == "reverse"
    ensures Run(book, [(cmd, key)] + rest, serialize)
      == Outcome((if cmd == "display" then [Displayed(if key == "console" then ConsoleDisplay else ReverseDisplay, book.content)]
                  else book.PrintBook(if key == "console" then ConsolePrint else ReversePrint))
                 + Run(book, rest, serialize).trace,
                 Run(book, rest, serialize).result)
  {
    assert ([(cmd, key)] + rest)[0] == (cmd, key) && ([(cmd, key)] + rest)[1..] == rest;
  }

  /** A command name other than display, print and serialize writes nothing and changes nothing. */
  lemma UnknownCommandIsNoOp(book: Book, c: Command, rest: seq<Command>, serialize: Serializer)
    requires c.0 != "display" && c.0 != "print" && c.0 != "serialize"
    ensures Run(book, [c] + rest, serialize) == Run(book, rest, serialize)
  {
    assert ([c] + rest)[1..] == rest;
  }

  /** An unknown display key, then no value: "Unknown display type: bogus". */
  lemma BogusDisplayScenario(book: Book, serialize: Serializer)
    ensures Run(book, [("display", "bogus")], serialize)
      == Outcome([Line("Unknown display type: bogus")], None)
  {
    assert [("display", "bogus")][1..] == [];
    assert "Unknown display type: " + "bogus" == "Unknown display type: bogus";
  }

  /** Printing with the console strategy: the heading with the title, then the content. */
  lemma ConsolePrintScenario(serialize: Serializer)
    ensures Run(Book("T", "abc"), [("print", "console")], serialize)
      == Outcome([Line("Printing the book: T..."), Line("abc")], None)
  {
    assert [("print", "console")][1..] == [];
    assert ConsoleHeading + "T" + "..." == "Printing the book: T...";
  }

  /** Printing with the reverse strategy writes the content back to front. */
  lemma ReversePrintScenario(serialize: Serializer)
    ensures Run(Book("T", "abc"), [("print", "reverse")], serialize)
      == Outcome([Line("Printing the book in reverse: T..."), Line("cba")], None)
  {
    assert [("print", "reverse")][1..] == [];
    assert ReverseHeading + "T" + "..." == "Printing the book in reverse: T...";
    assert Reverse("abc") == "cba";
  }
}
