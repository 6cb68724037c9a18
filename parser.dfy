/**
 * The streaming text accumulator (`MSSParser`): a writable sink that decodes every chunk
 * it is given with a fresh string decoder, appends the text to a buffer, and at the end
 * parses the buffer as XML and builds the manifest model from the tree.
 */
module Parser {
  import opened Wrappers
  import opened Js
  import opened Manifest

  newtype byte = b: int | 0 <= b < 256

  /** The options object of `new MSSParser(opts)`; only its `encoding` is read. */
  datatype ParserOptions = ParserOptions(encoding: Option<string>)

  /**
   * The text a freshly created string decoder for an encoding returns from `write` on one
   * chunk. Node's decoder is not part of this model, so it is a parameter.
   */
  type Decoder = (string, seq<byte>) -> string

  /** `(opts && opts.encoding) || "utf8"`: no options, no encoding or an empty one all mean "utf8". */
  function SelectEncoding(opts: Option<ParserOptions>): (encoding: string)
    ensures encoding != ""
    ensures opts.None? || opts.value.encoding.None? || opts.value.encoding == Some("") ==> encoding == "utf8"
    ensures opts.Some? && opts.value.encoding.Some? && opts.value.encoding.value != ""
            ==> encoding == opts.value.encoding.value
  {
    match opts
    case None => "utf8"
    case Some(o) => if o.encoding.Some? && o.encoding.value != "" then o.encoding.value else "utf8"
  }

  /** The text of the chunks, each decoded on its own and the results joined in order. */
  function DecodeEach(decode: Decoder, encoding: string, chunks: seq<seq<byte>>): string {
    if chunks == [] then ""
    else DecodeEach(decode, encoding, chunks[..|chunks| - 1]) + decode(encoding, chunks[|chunks| - 1])
  }

  /**
   * Decoding is per chunk, so the text of a series of chunks is the text of a first part
   * followed by the text of the rest. Nothing is carried across a chunk boundary: the text
   * of two chunks is the text of each, which in general differs from the text of their join.
   */
  lemma {:induction false} DecodeEachAppend(decode: Decoder, encoding: string, cs: seq<seq<byte>>, ds: seq<seq<byte>>)
    ensures DecodeEach(decode, encoding, cs + ds) == DecodeEach(decode, encoding, cs) + DecodeEach(decode, encoding, ds)
  {
    if ds == [] {
      assert cs + ds == cs;
    } else {
      var init := ds[..|ds| - 1];
      assert (cs + ds)[..|cs + ds| - 1] == cs + init;
      assert (cs + ds)[|cs + ds| - 1] == ds[|ds| - 1];
      DecodeEachAppend(decode, encoding, cs, init);
    }
  }

  /** Writing more chunks never alters the text of the earlier ones: it is a prefix. */
  lemma EarlierTextIsPrefix(decode: Decoder, encoding: string, cs: seq<seq<byte>>, ds: seq<seq<byte>>)
    ensures var before := DecodeEach(decode, encoding, cs);
            var after := DecodeEach(decode, encoding, cs + ds);
            |before| <= |after| && after[..|before|] == before
  {
    DecodeEachAppend(decode, encoding, cs, ds);
  }

  class MssParser {
    const encoding: string
    const decode: Decoder
    var stringBuffer: string
    var mssJsonObj: Option<Node>
    var mssObj: Option<Mss>
    /** The chunks written so far, in order. */
    ghost var written: seq<seq<byte>>

    ghost predicate Valid()
      reads this
    {
      stringBuffer == DecodeEach(decode, encoding, written)
    }

    /** `new MSSParser(opts)`: the chosen encoding and an empty buffer. */
    constructor (opts: Option<ParserOptions>, decode: Decoder)
      ensures Valid()
      ensures encoding == SelectEncoding(opts) && this.decode == decode
      ensures written == [] && stringBuffer == ""
      ensures mssJsonObj == None && mssObj == None
    {
      encoding := SelectEncoding(opts);
      this.decode := decode;
      stringBuffer := "";
      mssJsonObj := None;
      mssObj := None;
      written := [];
    }

    /** `_write(chunk)`: decode the chunk with a fresh decoder and append the text. */
    method Write(chunk: seq<byte>)
      requires Valid()
      modifies this`stringBuffer, this`written
      ensures Valid()
      ensures written == old(written) + [chunk]
      ensures stringBuffer == old(stringBuffer) + decode(encoding, chunk)
    {
      var text := decode(encoding, chunk);
      stringBuffer := stringBuffer + text;
      written := written + [chunk];
    }

    /**
     * `_final()`: parse the buffer (the XML library is the parameter `xmlParse`), keep the
     * tree, and build the model. When the build throws, the tree is kept, no model is
     * stored, and the error is the outcome.
     */
    method Final(xmlParse: string -> Node) returns (outcome: Result<Mss, TypeError>)
      requires Valid()
      modifies this`mssJsonObj, this`mssObj
      ensures Valid()
      ensures mssJsonObj == Some(xmlParse(stringBuffer))
      ensures outcome == BuildMss(xmlParse(stringBuffer))
      ensures mssObj == if outcome.Ok? then Some(outcome.value) else old(mssObj)
      ensures Model() == if outcome.Ok? then Some(outcome.value) else old(Model())
    {
      var tree := xmlParse(stringBuffer);
      mssJsonObj := Some(tree);
      outcome := BuildMss(tree);
      if outcome.Ok? {
        mssObj := Some(outcome.value);
      }
    }

    /** The `mss` getter. */
    function Model(): Option<Mss>
      reads this
    {
      mssObj
    }

    /** `toString()`: the text of every chunk written so far, each decoded on its own, in order. */
    function ToString(): (text: string)
      reads this
      requires Valid()
      ensures text == DecodeEach(decode, encoding, written)
    {
      stringBuffer
    }
  }

  /**
   * A client of the parser: whatever the split of the input into two chunks, the buffer is
   * the two per-chunk texts joined, and after the end of input the model is the build of
   * the parsed buffer.
   */
  method ParseTwoChunks(opts: Option<ParserOptions>, decode: Decoder, xmlParse: string -> Node,
                        first: seq<byte>, second: seq<byte>)
    returns (text: string, outcome: Result<Mss, TypeError>)
    ensures text == decode(SelectEncoding(opts), first) + decode(SelectEncoding(opts), second)
    ensures outcome == BuildMss(xmlParse(text))
  {
    var p := new MssParser(opts, decode);
    p.Write(first);
    p.Write(second);
    text := p.ToString();
    assert text == decode(SelectEncoding(opts), first) + decode(SelectEncoding(opts), second);
    outcome := p.Final(xmlParse);
  }
}
