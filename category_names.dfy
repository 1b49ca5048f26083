/**
 * The normal form every backend handler applies to a category name taken
 * from a path parameter or a request body: Go's
 * `strings.Title(strings.ToLower(name))`. Nothing is trimmed.
 */
module CategoryNames {
  import opened Text

  /**
   * Go's `strings.isSeparator`: in ASCII everything except letters, digits
   * and `_` separates words; beyond ASCII only the Unicode space characters
   * do (letters and digits never do).
   */
  predicate IsSeparator(c: char) {
    if c as int <= 0x7F then !(IsAsciiLetter(c) || IsDigit(c) || c == '_')
    else (c == '\U{0085}' || c == '\U{00A0}' || c == '\U{1680}'
      || ('\U{2000}' <= c <= '\U{200A}') || c == '\U{2028}' || c == '\U{2029}'
      || c == '\U{202F}' || c == '\U{205F}' || c == '\U{3000}')
  }

  /** A word starts at index `i` of `s`: first character, or after a separator. */
  predicate StartsWord(s: string, i: nat)
    requires i < |s|
  {
    i == 0 || IsSeparator(s[i - 1])
  }

  /** `strings.Title`: the first letter of every word upper-cased. */
  function Title(s: string): (r: string)
    ensures |r| == |s|
    ensures forall i | 0 <= i < |s| :: r[i] == (if StartsWord(s, i) then UpperChar(s[i]) else s[i])
  {
    seq(|s|, i requires 0 <= i < |s| => if StartsWord(s, i) then UpperChar(s[i]) else s[i])
  }

  /** The stored form of a category name. */
  function Norm(name: string): (r: string)
    ensures |r| == |name|
  {
    Title(Lower(name))
  }

  /**
   * Changing the case of a character never changes whether it separates
   * words.
   */
  lemma SeparatorIgnoresCase(c: char)
    ensures IsSeparator(LowerChar(c)) == IsSeparator(c)
    ensures IsSeparator(UpperChar(c)) == IsSeparator(c)
  {
  }

  /** Title case: word starts are never lower case, other letters never upper case. */
  predicate IsTitleCased(t: string) {
    forall i | 0 <= i < |t| ::
      if StartsWord(t, i) then !IsAsciiLower(t[i]) else !IsAsciiUpper(t[i])
  }

  /** Two strings equal up to ASCII letter case. */
  predicate SameLetters(s: string, t: string) {
    Lower(s) == Lower(t)
  }

  lemma SameLettersSameWords(s: string, t: string, i: nat)
    requires SameLetters(s, t) && i < |s|
    ensures |t| == |s| && StartsWord(s, i) == StartsWord(t, i)
  {
    assert |Lower(s)| == |Lower(t)|;
    if i > 0 {
      assert LowerChar(s[i - 1]) == Lower(s)[i - 1] == Lower(t)[i - 1] == LowerChar(t[i - 1]);
      SeparatorIgnoresCase(s[i - 1]);
      SeparatorIgnoresCase(t[i - 1]);
    }
  }

  /** The normal form is title-cased and has the letters of the input. */
  lemma NormIsTitleCased(name: string)
    ensures IsTitleCased(Norm(name))
    ensures SameLetters(Norm(name), name)
  {
    var l := Lower(name);
    var r := Norm(name);
    forall i | 0 <= i < |r|
      ensures StartsWord(r, i) == StartsWord(l, i)
      ensures LowerChar(r[i]) == LowerChar(name[i])
    {
      if i > 0 {
        SeparatorIgnoresCase(l[i - 1]);
        SeparatorIgnoresCase(r[i - 1]) ;
        assert r[i - 1] == l[i - 1] || r[i - 1] == UpperChar(l[i - 1]);
      }
      CaseRoundTrip(name[i]);
    }
    assert Lower(r) == Lower(name);
  }

  /**
   * The normal form is the only title-cased string with the letters of the
   * input: `Norm` is characterised without reference to its definition.
   */
  lemma NormUnique(name: string, t: string)
    requires IsTitleCased(t) && SameLetters(t, name)
    ensures t == Norm(name)
  {
    NormIsTitleCased(name);
    var r := Norm(name);
    assert |t| == |name| by { assert |Lower(t)| == |Lower(name)|; }
    forall i | 0 <= i < |t|
      ensures t[i] == r[i]
    {
      SameLettersSameWords(t, name, i);
      SameLettersSameWords(r, name, i);
      assert LowerChar(t[i]) == Lower(t)[i] == Lower(name)[i] == LowerChar(name[i]);
      assert LowerChar(r[i]) == Lower(r)[i] == Lower(name)[i];
      CaseRoundTrip(t[i]);
      CaseRoundTrip(r[i]);
    }
  }

  /** Normalising twice is normalising once. */
  lemma NormIdempotent(name: string)
    ensures Norm(Norm(name)) == Norm(name)
  {
    NormIsTitleCased(name);
    NormIsTitleCased(Norm(name));
    NormUnique(Norm(name), Norm(name));
  }

  /** Category names match case-insensitively: only the letters count. */
  lemma NormIgnoresCase(a: string, b: string)
    ensures Norm(a) == Norm(b) <==> SameLetters(a, b)
  {
    NormIsTitleCased(a);
    NormIsTitleCased(b);
    if SameLetters(a, b) {
      NormUnique(b, Norm(a));
    }
  }

  lemma NormOfUpper(name: string)
    ensures Norm(Upper(name)) == Norm(name)
  {
    LowerOfUpper(name);
    NormIgnoresCase(Upper(name), name);
  }
}
