/**
 * The print strategies: each writes two lines, a heading naming the title and
 * then the content, which the reverse strategy writes back to front. Lines are
 * returned as a sequence instead of being written to standard output.
 */
module Print {
  datatype PrintMethod = ConsolePrint | ReversePrint

  const ConsoleHeading: string := "Printing the book: "
  const ReverseHeading: string := "Printing the book in reverse: "

  function Heading(m: PrintMethod): string {
    match m
    case ConsolePrint => ConsoleHeading
    case ReversePrint => ReverseHeading
  }

  /** The characters of s back to front (Python's s[::-1] on code points). */
  function Reverse(s: string): (r: string)
    ensures |r| == |s|
  {
    if s == [] then [] else Reverse(s[1..]) + [s[0]]
  }

  /** Character i of the reversal is character |s|-1-i of the original. */
  lemma {:induction false} ReverseAt(s: string, i: nat)
    requires i < |s|
    ensures Reverse(s)[i] == s[|s| - 1 - i]
  {
    if i < |s| - 1 {
      ReverseAt(s[1..], i);
    }
  }

  /** Reversing twice gives back the original content. */
  lemma {:induction false} ReverseInvolution(s: string)
    ensures Reverse(Reverse(s)) == s
  {
    var r := Reverse(s);
    forall i | 0 <= i < |s|
      ensures Reverse(r)[i] == s[i]
    {
      ReverseAt(r, i);
      ReverseAt(s, |s| - 1 - i);
    }
  }

  /** ConsolePrint.print: the heading, then the content unchanged. */
  function ConsolePrintLines(title: string, content: string): (lines: seq<string>)
    ensures |lines| == 2 && lines[1] == content
  {
    [ConsoleHeading + title + "...", content]
  }

  /** ReversePrint.print: the reverse heading, then the content back to front. */
  function ReversePrintLines(title: string, content: string): (lines: seq<string>)
    ensures |lines| == 2
    ensures |lines[1]| == |content|
    ensures forall i :: 0 <= i < |content| ==> lines[1][i] == content[|content| - 1 - i]
  {
    var back := Reverse(content);
    forall i | 0 <= i < |content|
      ensures back[i] == content[|content| - 1 - i]
    {
      ReverseAt(content, i);
    }
    [ReverseHeading + title + "...", back]
  }

  /** The strategy's print method, selected by the strategy object. */
  function PrintLines(m: PrintMethod, title: string, content: string): (lines: seq<string>)
    ensures |lines| == 2
  {
    match m
    case ConsolePrint => ConsolePrintLines(title, content)
    case ReversePrint => ReversePrintLines(title, content)
  }

  /**
   * Neither strategy reverses the title: the first line is the heading, the
   * title verbatim and "...", whatever the content is.
   */
  lemma TitleNeverReversed(m: PrintMethod, title: string, content: string)
    ensures var line := PrintLines(m, title, content)[0];
      && |line| == |Heading(m)| + |title| + 3
      && line[..|Heading(m)|] == Heading(m)
      && line[|Heading(m)|..|Heading(m)| + |title|] == title
      && line[|Heading(m)| + |title|..] == "..."
  {
  }

  /** Reverse printing of reversed content writes the content as the console strategy does. */
  lemma {:induction false} ReversePrintUndoesReversal(title: string, content: string)
    ensures ReversePrintLines(title, Reverse(content))[1] == ConsolePrintLines(title, content)[1]
  {
    ReverseInvolution(content);
  }

  /** Empty content is accepted, and both strategies then write an empty second line. */
  lemma EmptyContentPrintsEmptyLine(m: PrintMethod, title: string)
    ensures PrintLines(m, title, "")[1] == ""
  {
  }
}
