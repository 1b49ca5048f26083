/**
 * MongoDB ObjectIDs as the Go backend exchanges them: 24 hexadecimal
 * digits. `ObjectIDFromHex` accepts either case; `Hex()` always writes lower
 * case, so an identifier is represented by its lower-case text.
 */
module ObjectIds {
  import opened Base
  import opened Text

  predicate IsHexDigit(c: char) {
    IsDigit(c) || ('a' <= c <= 'f') || ('A' <= c <= 'F')
  }

  predicate IsLowerHexDigit(c: char) {
    IsDigit(c) || ('a' <= c <= 'f')
  }

  predicate IsCanonical(s: string) {
    |s| == 24 && forall i | 0 <= i < |s| :: IsLowerHexDigit(s[i])
  }

  /** The all-zero identifier, `primitive.NilObjectID`. */
  const ZeroHex: string := "000000000000000000000000"

  /** An identifier, written as `Hex()` writes it. */
  type ObjectId = s: string | IsCanonical(s) witness ZeroHex

  predicate IsZero(id: ObjectId) {
    id == ZeroHex
  }

  /**
   * `primitive.ObjectIDFromHex`: exactly 24 characters, all hexadecimal
   * digits of either case; anything else is an error.
   */
  function FromHex(s: string): (r: Option<ObjectId>)
    ensures r.Some? <==> |s| == 24 && forall i | 0 <= i < |s| :: IsHexDigit(s[i])
    ensures r.Some? ==> r.value == Lower(s)
  {
    if |s| == 24 && forall i | 0 <= i < |s| :: IsHexDigit(s[i]) then
      assert forall i | 0 <= i < |Lower(s)| :: IsLowerHexDigit(Lower(s)[i]);
      var t: ObjectId := Lower(s);
      Some(t)
    else None
  }

  /** Reading back what `Hex()` wrote gives the same identifier. */
  lemma HexRoundTrip(id: ObjectId)
    ensures FromHex(id) == Some(id)
  {
    assert forall i | 0 <= i < |id| :: IsHexDigit(id[i]);
    assert Lower(id) == id;
  }

  /** Parsing ignores the case of the hex digits. */
  lemma FromHexIgnoresCase(s: string)
    ensures FromHex(Upper(s)) == FromHex(s)
  {
    LowerOfUpper(s);
    assert forall i | 0 <= i < |s| :: IsHexDigit(Upper(s)[i]) == IsHexDigit(s[i]);
  }

  /** A parsed identifier never contains the path separator `/`. */
  lemma NoSlash(id: ObjectId)
    ensures '/' !in id
  {
    assert forall i | 0 <= i < |id| :: id[i] != '/';
  }
}
