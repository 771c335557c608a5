/** The XML stream the importer reads, as the sequence of tokens a
    `QXmlStreamReader` delivers. Only start and end elements matter to the
    importer; every other token (text, comments, the document start and
    end) is `Other`. A well-formed document ends with its end-document
    token; a broken one ends with the `Invalid` token `readNext` returns at
    the error, after which `hasError()` holds. Either last token ends the
    stream. */
module Xml {

  datatype Event =
    | Start(name: string, attrs: map<string, string>)
    | End(name: string)
    | Other
    | Invalid

  /** `xml.name()` of a token: empty for tokens that are not elements. */
  function Name(e: Event): string {
    match e
    case Start(n, _) => n
    case End(n) => n
    case Other => ""
    case Invalid => ""
  }

  /** `xml.attributes()`: only a start element carries attributes. */
  function Attributes(e: Event): map<string, string> {
    if e.Start? then e.attrs else map[]
  }

  /** `attributes.value(key)`: the empty string when the attribute is missing. */
  function Value(attrs: map<string, string>, key: string): (v: string)
    ensures key !in attrs ==> v == ""
  {
    if key in attrs then attrs[key] else ""
  }

  /** The token that ends a stream: the end of the document, or the
      `Invalid` token of a syntax error. */
  function LastToken(failed: bool): Event {
    if failed then Invalid else Other
  }

  /** The reader the stream walker and the relation sub-parser share. */
  class Reader {
    /** Every token in order, the end-of-stream token last. */
    const events: seq<Event>
    /** The document has a syntax error where its tokens stop. */
    const failed: bool
    /** How many tokens have been read. */
    var pos: nat

    /** The tokens end in the end-of-stream token. */
    predicate WellEnded() {
      |events| > 0 && events[|events| - 1] == LastToken(failed)
    }

    predicate Valid()
      reads this
    {
      pos <= |events| && WellEnded()
    }

    /** A reader over the `tokens` of a document, which may not contain the
        error token: that token is delivered only where the document breaks. */
    constructor (tokens: seq<Event>, failed: bool)
      requires forall i :: 0 <= i < |tokens| ==> tokens[i] != Invalid
      ensures events == tokens + [LastToken(failed)] && this.failed == failed && pos == 0
      ensures Valid()
    {
      events := tokens + [LastToken(failed)];
      this.failed := failed;
      pos := 0;
    }

    /** `xml.atEnd()` */
    predicate AtEnd()
      reads this
    {
      pos >= |events|
    }

    /** `xml.hasError()`: an error is reported once its token is read. */
    predicate HasError()
      reads this
    {
      failed && pos >= |events|
    }

    /** The token read last, or `Other` before the first read. */
    function Current(): Event
      reads this
    {
      if 0 < pos <= |events| then events[pos - 1] else Other
    }

    /** `xml.readNext()` */
    method ReadNext()
      requires Valid()
      modifies this`pos
      ensures Valid()
      ensures pos == if old(pos) < |events| then old(pos) + 1 else old(pos)
      ensures old(pos) < |events| ==> Current() == events[old(pos)]
      ensures AtEnd() ==> Current() == LastToken(failed)
    {
      if pos < |events| {
        pos := pos + 1;
      }
    }
  }
}
