/**
  MongoDB object identifiers as the handlers use them: `ObjectId(text)` parses
  the id taken from the URL (raising on malformed text) and `str(oid)` gives
  its canonical text.
 */
module ObjectIds {
  import opened Wrappers
  import opened Text

  /** An ObjectId, kept as its canonical text: what `str(oid)` returns. */
  datatype ObjectId = ObjectId(hex: string)

  predicate IsLowerHexDigit(c: char) { IsAsciiDigit(c) || 'a' <= c <= 'f' }

  /** Twelve bytes, written as 24 lower-case hex digits. */
  predicate WellFormed(oid: ObjectId) {
    |oid.hex| == 24 && forall i | 0 <= i < 24 :: IsLowerHexDigit(oid.hex[i])
  }

  /**
    `ObjectId(text)` for a string: exactly 24 hex digits of either case; any
    other text raises (`None` here).
   */
  function ParseObjectId(text: string): (r: Option<ObjectId>)
    ensures r.Some? ==> WellFormed(r.value)
  {
    if |text| == 24 && forall i | 0 <= i < 24 :: IsHexDigit(text[i]) then Some(ObjectId(Lower(text)))
    else None
  }

  /** The id syntax check every item route performs before touching the store. */
  predicate ValidId(text: string) {
    ParseObjectId(text).Some?
  }

  /** `str(oid)`. */
  function IdString(oid: ObjectId): string {
    oid.hex
  }

  /** The text of an id parses back to the same id. */
  lemma ParseIdString(oid: ObjectId)
    requires WellFormed(oid)
    ensures ParseObjectId(IdString(oid)) == Some(oid)
  {
    assert Lower(oid.hex) == oid.hex;
  }

  /** Parsing only normalises case: the parsed id prints as the lower-cased input. */
  lemma IdStringOfParse(text: string)
    requires ValidId(text)
    ensures IdString(ParseObjectId(text).value) == Lower(text)
    ensures ParseObjectId(Lower(text)) == ParseObjectId(text)
  {
    var low := Lower(text);
    forall i | 0 <= i < 24 ensures IsHexDigit(low[i]) && LowerChar(low[i]) == low[i] {
      assert IsHexDigit(text[i]);
    }
    assert Lower(low) == low;
  }
}
