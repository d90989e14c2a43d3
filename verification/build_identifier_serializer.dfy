/**
 * The wire codec of build identifiers (BuildIdentifierSerializer): an identifier is
 * written as its name followed by its "is current build" flag, and read back as the
 * current-build identifier kind when the flag is set, the foreign-build kind otherwise.
 *
 * The binary stream is modelled as a sequence of typed tokens: the encoder appends to it,
 * the decoder moves a cursor along it.
 */
module BuildIdentifierSerialization {
  import opened Wrappers

  /** A build identifier: the current build's own kind, or a foreign build's. */
  datatype BuildIdentifier = DefaultBuildIdentifier(name: string) | ForeignBuildIdentifier(name: string) {
    predicate IsCurrentBuild() {
      DefaultBuildIdentifier?
    }
  }

  /** One value on the stream. */
  datatype Token = StringToken(s: string) | BooleanToken(b: bool)

  /** Why a read fails: nothing left, or a value of the other type where one was expected. */
  datatype DecodeError = EndOfStream | UnexpectedToken(position: nat)

  /** An output stream: everything written so far. */
  class Encoder {
    var written: seq<Token>

    constructor ()
      ensures written == []
    {
      written := [];
    }

    method WriteString(s: string)
      modifies this
      ensures written == old(written) + [StringToken(s)]
    {
      written := written + [StringToken(s)];
    }

    method WriteBoolean(b: bool)
      modifies this
      ensures written == old(written) + [BooleanToken(b)]
    {
      written := written + [BooleanToken(b)];
    }
  }

  /** An input stream: fixed contents and a read position; a successful read advances it. */
  class Decoder {
    const input: seq<Token>
    var position: nat

    ghost predicate Valid()
      reads this
    {
      position <= |input|
    }

    constructor (input: seq<Token>)
      ensures Valid() && this.input == input && position == 0
    {
      this.input := input;
      position := 0;
    }

    method ReadString() returns (r: Result<string, DecodeError>)
      requires Valid()
      modifies this
      ensures Valid()
      ensures old(position) == |input| ==> r == Failure(EndOfStream) && position == old(position)
      ensures old(position) < |input| && input[old(position)].StringToken? ==>
        r == Success(input[old(position)].s) && position == old(position) + 1
      ensures old(position) < |input| && !input[old(position)].StringToken? ==>
        r == Failure(UnexpectedToken(old(position))) && position == old(position)
    {
      if position == |input| {
        return Failure(EndOfStream);
      }
      match input[position]
      case StringToken(s) =>
        position := position + 1;
        return Success(s);
      case BooleanToken(_) =>
        return Failure(UnexpectedToken(position));
    }

    method ReadBoolean() returns (r: Result<bool, DecodeError>)
      requires Valid()
      modifies this
      ensures Valid()
      ensures old(position) == |input| ==> r == Failure(EndOfStream) && position == old(position)
      ensures old(position) < |input| && input[old(position)].BooleanToken? ==>
        r == Success(input[old(position)].b) && position == old(position) + 1
      ensures old(position) < |input| && !input[old(position)].BooleanToken? ==>
        r == Failure(UnexpectedToken(old(position))) && position == old(position)
    {
      if position == |input| {
        return Failure(EndOfStream);
      }
      match input[position]
      case BooleanToken(b) =>
        position := position + 1;
        return Success(b);
      case StringToken(_) =>
        return Failure(UnexpectedToken(position));
    }
  }

  /** The tokens write emits for an identifier. */
  function Encode(value: BuildIdentifier): seq<Token> {
    [StringToken(value.name), BooleanToken(value.IsCurrentBuild())]
  }

  /**
   * What read makes of the tokens from `start` on: a string then a boolean, or the error
   * of the first read that fails.
   */
  function Decode(tokens: seq<Token>, start: nat): (r: Result<BuildIdentifier, DecodeError>)
    requires start <= |tokens|
    ensures r.Success? <==>
      start + 2 <= |tokens| && tokens[start].StringToken? && tokens[start + 1].BooleanToken?
    ensures r.Success? ==>
      r.value.name == tokens[start].s && r.value.IsCurrentBuild() == tokens[start + 1].b
  {
    if start == |tokens| then Failure(EndOfStream)
    else if !tokens[start].StringToken? then Failure(UnexpectedToken(start))
    else if start + 1 == |tokens| then Failure(EndOfStream)
    else if !tokens[start + 1].BooleanToken? then Failure(UnexpectedToken(start + 1))
    else if tokens[start + 1].b then Success(DefaultBuildIdentifier(tokens[start].s))
    else Success(ForeignBuildIdentifier(tokens[start].s))
  }

  /** write: the name, then the flag, appended to what the encoder already holds. */
  method Write(encoder: Encoder, value: BuildIdentifier)
    modifies encoder
    ensures encoder.written == old(encoder.written) + Encode(value)
  {
    encoder.WriteString(value.name);
    encoder.WriteBoolean(value.IsCurrentBuild());
  }

  /**
   * read: one string, then one boolean. On success exactly two tokens are consumed; when
   * the boolean read fails, the string read has already consumed one.
   */
  method Read(decoder: Decoder) returns (r: Result<BuildIdentifier, DecodeError>)
    requires decoder.Valid()
    modifies decoder
    ensures decoder.Valid()
    ensures r == Decode(decoder.input, old(decoder.position))
    ensures r.Success? ==> decoder.position == old(decoder.position) + 2
    ensures r.Failure? ==>
      var consumed := if old(decoder.position) < |decoder.input| && decoder.input[old(decoder.position)].StringToken? then 1 else 0;
      decoder.position == old(decoder.position) + consumed
  {
    var buildName := decoder.ReadString();
    if buildName.Failure? {
      return Failure(buildName.error);
    }
    var isCurrent := decoder.ReadBoolean();
    if isCurrent.Failure? {
      return Failure(isCurrent.error);
    }
    if isCurrent.value {
      r := Success(DefaultBuildIdentifier(buildName.value));
    } else {
      r := Success(ForeignBuildIdentifier(buildName.value));
    }
  }

  /** Reading back what was written gives the same identifier, whatever follows it. */
  lemma DecodeEncode(value: BuildIdentifier, before: seq<Token>, after: seq<Token>)
    ensures Decode(before + Encode(value) + after, |before|) == Success(value)
  {
  }

  /** Whatever reads successfully was written by write: its two tokens are the encoding. */
  lemma EncodeDecode(tokens: seq<Token>, start: nat)
    requires start <= |tokens|
    requires Decode(tokens, start).Success?
    ensures tokens[start..start + 2] == Encode(Decode(tokens, start).value)
  {
  }

  /** write into a fresh encoder, then read from a decoder over its output. */
  method WriteThenRead(value: BuildIdentifier) returns (r: Result<BuildIdentifier, DecodeError>)
    ensures r == Success(value)
  {
    var encoder := new Encoder();
    Write(encoder, value);
    var decoder := new Decoder(encoder.written);
    r := Read(decoder);
    DecodeEncode(value, [], []);
  }
}
