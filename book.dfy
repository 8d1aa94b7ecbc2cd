/**
 * The Book record: a title and a content, set once by the constructor and
 * never updated, so it is a datatype value. Its three operations hand the
 * fields to a strategy and add nothing of their own.
 */
module Books {
  import opened Output
  import opened Print
  import opened Serialization

  datatype Book = Book(title: string, content: string) {

    /** display: the strategy receives the content alone. */
    function Display(m: DisplayMethod): (events: seq<Event>) {
      [Displayed(m, content)]
    }

    /** print_book: the strategy receives the title, then the content. */
    function PrintBook(m: PrintMethod): (events: seq<Event>)
      ensures events == [Line(Heading(m) + title + "..."), Line(if m == ConsolePrint then content else Reverse(content))]
    {
      var lines := PrintLines(m, title, content);
      [Line(lines[0]), Line(lines[1])]
    }

    /** serialize: the strategy's text is returned as it is. */
    function Serialize(m: SerializationMethod, serialize: Serializer): string {
      serialize(m, title, content)
    }
  }

  /** A display sees the content and nothing else: two books with the same content display alike. */
  lemma DisplayPassesOnlyContent(b1: Book, b2: Book, m: DisplayMethod)
    requires b1.content == b2.content
    ensures b1.Display(m) == b2.Display(m)
  {
  }
}
