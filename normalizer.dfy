/**
 * The record normaliser `processDocument`: it turns one raw record of the
 * knowledge-base content API (capitalised fields `Title` and `Content`, the
 * latter a list of rich-text blocks) into a LangChain `Document`, or into
 * nothing when the record carries no usable text.
 */
module Normalizer {
  import opened Wrappers
  import opened JsText

  /** One text span of a rich-text block; `text` may be absent. */
  datatype Child = Child(text: Option<string>)

  /** One rich-text block: its `type` tag and its optional `children` list. */
  datatype Block = Block(kind: Option<string>, children: Option<seq<Child>>)

  /** An element of the fetched `data` array: `null`, or a record object. */
  datatype RawRecord =
    | NullRecord
    | Record(id: Option<int>, documentId: Option<string>,
             title: Option<string>, content: Option<seq<Block>>)

  /** The metadata attached to every normalised document. */
  datatype Metadata = Metadata(source: string, id: Option<int>, title: string,
                               documentId: Option<string>)

  /** A LangChain document: the text to index and its metadata. */
  datatype Document = Document(pageContent: string, metadata: Metadata)

  /** The value of the `source` metadata field. */
  const SOURCE := "milvus_content"

  /** Separator between the spans of one paragraph. */
  const SPAN_SEPARATOR := " "

  /** Separator between paragraphs: one blank line. */
  const PARAGRAPH_SEPARATOR := "\n\n"

  /** JavaScript truthiness of an optional string: present and non-empty. */
  predicate Truthy(s: Option<string>) {
    s.Some? && s.value != ""
  }

  /** What `Array.prototype.join` writes for one span: `undefined` becomes "". */
  function SpanText(c: Child): string {
    match c.text
    case Some(t) => t
    case None => ""
  }

  /** The `text` of every span of a block, in order. */
  function SpanTexts(children: seq<Child>): (r: seq<string>)
    ensures |r| == |children|
    ensures forall i :: 0 <= i < |children| ==> r[i] == SpanText(children[i])
  {
    seq(|children|, i requires 0 <= i < |children| => SpanText(children[i]))
  }

  /**
   * The map callback of `processDocument`: a paragraph block that has
   * children yields its spans joined by one space, trimmed; every other
   * block yields `null`.
   */
  function BlockText(b: Block): (r: Option<string>)
    ensures r.Some? <==> b.kind == Some("paragraph") && b.children.Some?
    ensures r.Some? && r.value != [] ==> IsTrimmedText(r.value)
  {
    if b.kind == Some("paragraph") && b.children.Some? then
      Some(Trim(Join(SpanTexts(b.children.value), SPAN_SEPARATOR)))
    else
      None
  }

  /** Non-empty text that neither starts nor ends with whitespace. */
  predicate IsTrimmedText(t: string) {
    t != [] && !IsTrimmable(t[0]) && !IsTrimmable(t[|t| - 1])
  }

  /** The `map(BlockText)` step over the record's `Content`. */
  function BlockTexts(blocks: seq<Block>): (r: seq<Option<string>>)
    ensures |r| == |blocks|
    ensures forall i :: 0 <= i < |blocks| ==> r[i] == BlockText(blocks[i])
  {
    seq(|blocks|, i requires 0 <= i < |blocks| => BlockText(blocks[i]))
  }

  /** JavaScript truthiness of a piece: neither `null` nor "". */
  predicate Kept(x: Option<string>) {
    x.Some? && x.value != ""
  }

  /**
   * The `filter(Boolean)` step: the strings of the truthy entries, in
   * order; each comes from an entry of `xs` and none is empty.
   */
  function KeepTruthy(xs: seq<Option<string>>): (r: seq<string>)
    ensures |r| <= |xs|
    ensures forall i :: 0 <= i < |r| ==> r[i] != "" && Some(r[i]) in xs
  {
    if xs == [] then []
    else if Kept(xs[0]) then [xs[0].value] + KeepTruthy(xs[1..])
    else KeepTruthy(xs[1..])
  }

  /** `filter` distributes over concatenation. */
  lemma {:induction false} KeepTruthyAppend(a: seq<Option<string>>, b: seq<Option<string>>)
    ensures KeepTruthy(a + b) == KeepTruthy(a) + KeepTruthy(b)
  {
    if a == [] {
      assert a + b == b;
    } else {
      assert (a + b)[0] == a[0];
      assert (a + b)[1..] == a[1..] + b;
      KeepTruthyAppend(a[1..], b);
    }
  }

  /** `filter` leaves nothing exactly when no entry is truthy. */
  lemma {:induction false} KeepTruthyEmpty(xs: seq<Option<string>>)
    ensures KeepTruthy(xs) == [] <==> forall i :: 0 <= i < |xs| ==> !Kept(xs[i])
  {
    if xs != [] {
      var tail := xs[1..];
      KeepTruthyEmpty(tail);
      if !Kept(xs[0]) {
        if KeepTruthy(xs) == [] {
          forall i | 0 <= i < |xs| ensures !Kept(xs[i]) {
            if i > 0 { assert xs[i] == tail[i - 1]; }
          }
        } else {
          var j :| 0 <= j < |tail| && Kept(tail[j]);
          assert xs[j + 1] == tail[j];
        }
      }
    }
  }

  /** A block contributes when `filter(Boolean)` keeps its piece. */
  predicate Contributes(b: Block) {
    Kept(BlockText(b))
  }

  /**
   * The pieces of `processDocument`: the non-empty trimmed texts of the
   * paragraph blocks, in block order. Every piece is non-empty and neither
   * starts nor ends with whitespace.
   */
  function Pieces(blocks: seq<Block>): (r: seq<string>)
    ensures |r| <= |blocks|
    ensures forall i :: 0 <= i < |r| ==> IsTrimmedText(r[i])
  {
    var texts := BlockTexts(blocks);
    var r := KeepTruthy(texts);
    assert forall i :: 0 <= i < |r| ==> IsTrimmedText(r[i]) by {
      forall i | 0 <= i < |r| ensures IsTrimmedText(r[i]) {
        var j :| 0 <= j < |texts| && texts[j] == Some(r[i]);
        assert BlockText(blocks[j]) == Some(r[i]);
      }
    }
    r
  }

  /**
   * `processDocument`. A record that is `null`, has no `Content` or has a
   * falsy `Title` yields nothing; otherwise the pieces joined by a blank
   * line become the page content, unless that text is empty. A document it
   * returns has non-empty content that neither starts nor ends with
   * whitespace, and its metadata is exactly the record's identity.
   */
  function ProcessDocument(raw: RawRecord): (r: Option<Document>)
    ensures raw.NullRecord? || raw.content.None? || !Truthy(raw.title) ==> r == None
    ensures r.Some? ==>
      && raw.Record? && raw.content.Some? && raw.title.Some?
      && r.value.pageContent == Join(Pieces(raw.content.value), PARAGRAPH_SEPARATOR)
      && r.value.metadata == Metadata(SOURCE, raw.id, raw.title.value, raw.documentId)
    ensures r.Some? ==> IsTrimmedText(r.value.pageContent)
  {
    if raw.NullRecord? || raw.content.None? || !Truthy(raw.title) then None
    else
      var pieces := Pieces(raw.content.value);
      var text := Join(pieces, PARAGRAPH_SEPARATOR);
      if text == "" then None
      else
        JoinTrimmed(pieces, PARAGRAPH_SEPARATOR);
        Some(Document(text, Metadata(SOURCE, raw.id, raw.title.value, raw.documentId)))
  }

  /** The texts of consecutive runs of blocks concatenate. */
  lemma BlockTextsAppend(a: seq<Block>, b: seq<Block>)
    ensures BlockTexts(a + b) == BlockTexts(a) + BlockTexts(b)
  {
    assert forall i :: 0 <= i < |a + b| ==> (a + b)[i] == if i < |a| then a[i] else b[i - |a|];
  }

  /** Joining non-empty pieces gives "" exactly when there are none. */
  lemma JoinEmptyIff(pieces: seq<string>, sep: string)
    requires forall i :: 0 <= i < |pieces| ==> pieces[i] != ""
    ensures Join(pieces, sep) == "" <==> pieces == []
  {
    if pieces != [] {
      assert |pieces[0]| > 0;
    }
  }

  /** Joining trimmed pieces gives trimmed text. */
  lemma JoinTrimmed(pieces: seq<string>, sep: string)
    requires pieces != []
    requires forall i :: 0 <= i < |pieces| ==> IsTrimmedText(pieces[i])
    ensures IsTrimmedText(Join(pieces, sep))
  {
    var text := Join(pieces, sep);
    JoinEnds(pieces, sep);
    var first, last := pieces[0], pieces[|pieces| - 1];
    assert IsTrimmedText(first) && IsTrimmedText(last);
    assert text[0] == text[..|first|][0] == first[0];
    assert text[|text| - 1] == text[|text| - |last|..][|last| - 1] == last[|last| - 1];
  }

  /** Pieces of consecutive runs of blocks concatenate. */
  lemma PiecesAppend(a: seq<Block>, b: seq<Block>)
    ensures Pieces(a + b) == Pieces(a) + Pieces(b)
  {
    BlockTextsAppend(a, b);
    KeepTruthyAppend(BlockTexts(a), BlockTexts(b));
  }

  /** Some block of `blocks` contributes text. */
  predicate HasText(blocks: seq<Block>) {
    exists i :: 0 <= i < |blocks| && Contributes(blocks[i])
  }

  /** There is a piece exactly when some block contributes. */
  lemma PiecesNonEmpty(blocks: seq<Block>)
    ensures Pieces(blocks) != [] <==> HasText(blocks)
  {
    var texts := BlockTexts(blocks);
    KeepTruthyEmpty(texts);
    if HasText(blocks) {
      var i :| 0 <= i < |blocks| && Contributes(blocks[i]);
      assert Kept(texts[i]);
    }
  }

  /** The pieces of a single block. */
  lemma PiecesSingle(b: Block)
    ensures Pieces([b]) == if Contributes(b) then [BlockText(b).value] else []
  {
    assert BlockTexts([b]) == [BlockText(b)];
    assert [BlockText(b)][1..] == [];
  }

  /**
   * A block that is not a paragraph with children, or whose text trims to
   * nothing, may be inserted anywhere without changing the pieces.
   */
  lemma NonContributingBlockIgnored(before: seq<Block>, b: Block, after: seq<Block>)
    requires !Contributes(b)
    ensures Pieces(before + [b] + after) == Pieces(before + after)
  {
    PiecesAppend(before + [b], after);
    PiecesAppend(before, [b]);
    PiecesAppend(before, after);
    PiecesSingle(b);
    assert Pieces(before) + [] == Pieces(before);
  }

  /**
   * `processDocument` returns a document exactly when the record is an
   * object with `Content`, a truthy `Title` and at least one paragraph
   * block whose text is not all whitespace.
   */
  lemma ProcessDocumentSomeIff(raw: RawRecord)
    ensures ProcessDocument(raw).Some? <==>
      && raw.Record? && raw.content.Some? && Truthy(raw.title)
      && HasText(raw.content.value)
  {
    if raw.Record? && raw.content.Some? && Truthy(raw.title) {
      PiecesNonEmpty(raw.content.value);
      JoinEmptyIff(Pieces(raw.content.value), PARAGRAPH_SEPARATOR);
    }
  }

  /**
   * The normalised text of a record holding one paragraph with one span is
   * that span trimmed.
   */
  lemma SingleParagraph(id: Option<int>, key: Option<string>, title: string, text: string)
    requires title != "" && !AllTrimmable(text)
    ensures ProcessDocument(Record(id, key, Some(title),
              Some([Block(Some("paragraph"), Some([Child(Some(text))]))])))
            == Some(Document(Trim(text), Metadata(SOURCE, id, title, key)))
  {
    var b := Block(Some("paragraph"), Some([Child(Some(text))]));
    SingleParagraphPieces(text);
    assert Join([Trim(text)], PARAGRAPH_SEPARATOR) == Trim(text);
  }

  /** The pieces of one paragraph holding one span. */
  lemma SingleParagraphPieces(text: string)
    requires !AllTrimmable(text)
    ensures Pieces([Block(Some("paragraph"), Some([Child(Some(text))]))]) == [Trim(text)]
  {
    var b := Block(Some("paragraph"), Some([Child(Some(text))]));
    assert BlockText(b) == Some(Trim(text)) by {
      assert SpanTexts([Child(Some(text))]) == [text];
      assert Join([text], SPAN_SEPARATOR) == text;
    }
    PiecesSingle(b);
  }
}
