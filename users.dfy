/**
 * Password digests. bcrypt itself is not part of this model: a digest is
 * represented by a stand-in that keeps exactly the promises the backend
 * relies on. A digest is never the password itself, it verifies against
 * the password it was made from and against no other, and it carries a
 * salt that `GenerateFromPassword` picks at random (here a parameter).
 */
module Passwords {

  /** The version and cost prefix of a bcrypt digest at the default cost 10. */
  const Prefix: string := "$2a$10$"

  /** A bcrypt salt is 22 characters long. */
  type Salt = s: string | |s| == 22 witness "0000000000000000000000"

  /** `bcrypt.GenerateFromPassword` with a given salt. */
  function Hash(password: string, salt: Salt): (digest: string)
    ensures digest != password
    ensures |digest| == |Prefix| + 22 + |password|
  {
    Prefix + salt + password
  }

  /** `bcrypt.CompareHashAndPassword(digest, password) == nil`. */
  predicate Matches(digest: string, password: string) {
    |digest| >= |Prefix| + 22 && digest[..|Prefix|] == Prefix && digest[|Prefix| + 22..] == password
  }

  /** A digest verifies against exactly the password it was made from. */
  lemma HashThenMatch(password: string, salt: Salt, attempt: string)
    ensures Matches(Hash(password, salt), attempt) <==> attempt == password
  {
    var d := Hash(password, salt);
    assert d[|Prefix| + 22..] == password;
    assert d[..|Prefix|] == Prefix;
  }

  /** Two salts give two digests of one password, and both verify. */
  lemma SaltsDiffer(password: string, s1: Salt, s2: Salt)
    requires s1 != s2
    ensures Hash(password, s1) != Hash(password, s2)
    ensures Matches(Hash(password, s1), password) && Matches(Hash(password, s2), password)
  {
    assert Hash(password, s1)[|Prefix|..|Prefix| + 22] == s1;
    assert Hash(password, s2)[|Prefix|..|Prefix| + 22] == s2;
    HashThenMatch(password, s1, password);
    HashThenMatch(password, s2, password);
  }
}

/**
 * The user record of the Go backend and its helpers: the email pattern and
 * setting and checking a password.
 */
module Users {
  import opened Base
  import opened Text
  import opened Passwords

  // ---------------------------------------------------------------------
  // The email pattern ^[a-zA-Z0-9._%+\-]+@[a-zA-Z0-9.\-]+\.[a-zA-Z]{2,}$

  predicate IsAlnum(c: char) { IsAsciiLetter(c) || IsDigit(c) }

  predicate IsLocalChar(c: char) {
    IsAlnum(c) || c == '.' || c == '_' || c == '%' || c == '+' || c == '-'
  }

  predicate IsDomainChar(c: char) {
    IsAlnum(c) || c == '.' || c == '-'
  }

  /** The part before `@`: one or more of letters, digits and `._%+-`. */
  predicate LocalPart(s: string) {
    |s| >= 1 && forall i | 0 <= i < |s| :: IsLocalChar(s[i])
  }

  /** The domain before the last dot: one or more of letters, digits and `.-`. */
  predicate DomainPart(s: string) {
    |s| >= 1 && forall i | 0 <= i < |s| :: IsDomainChar(s[i])
  }

  /** The top-level domain: two or more ASCII letters. */
  predicate TopLevel(s: string) {
    |s| >= 2 && forall i | 0 <= i < |s| :: IsAsciiLetter(s[i])
  }

  /**
   * A recogniser for the pattern: the local part runs up to the first `@`
   * (no `@` can occur in it) and the rest is a host name.
   */
  predicate ValidEmail(s: string) {
    var at := IndexOf(s, '@');
    at.Some? && LocalPart(s[..at.value]) && HostName(s[at.value + 1..])
  }

  /**
   * The part after the `@`: the top-level domain is what follows the last
   * dot (no dot can occur in it), and the domain comes before that dot.
   */
  predicate HostName(s: string) {
    var dot := LastIndexOf(s, '.');
    dot.Some? && DomainPart(s[..dot.value]) && TopLevel(s[dot.value + 1..])
  }

  /** Splitting at an `@` that does not occur before it. */
  lemma SplitAtFirst(local: string, rest: string, c: char)
    requires c !in local
    ensures IndexOf(local + [c] + rest, c) == Some(|local|)
    ensures (local + [c] + rest)[..|local|] == local
    ensures (local + [c] + rest)[|local| + 1..] == rest
  {
    var s := local + [c] + rest;
    assert s[..|local|] == local;
    IndexOfAt(s, c, |local|);
  }

  /** Splitting at a dot that does not occur after it. */
  lemma SplitAtLast(domain: string, tld: string, c: char)
    requires c !in tld
    ensures LastIndexOf(domain + [c] + tld, c) == Some(|domain|)
    ensures (domain + [c] + tld)[..|domain|] == domain
    ensures (domain + [c] + tld)[|domain| + 1..] == tld
  {
    var s := domain + [c] + tld;
    assert s[|domain| + 1..] == tld;
    LastIndexOfAt(s, c, |domain|);
  }

  lemma Reassociate(a: string, b: string, c: string, d: string, e: string)
    ensures a + b + c + d + e == a + b + (c + d + e)
  {
  }

  /** Every string the pattern describes is recognised. */
  lemma ValidFromParts(local: string, domain: string, tld: string)
    requires LocalPart(local) && DomainPart(domain) && TopLevel(tld)
    ensures ValidEmail(local + "@" + domain + "." + tld)
  {
    assert '@' !in local by {
      forall i | 0 <= i < |local| ensures local[i] != '@' { assert IsLocalChar(local[i]); }
    }
    assert '.' !in tld by {
      forall i | 0 <= i < |tld| ensures tld[i] != '.' { assert IsAsciiLetter(tld[i]); }
    }
    var rest := domain + ['.'] + tld;
    SplitAtLast(domain, tld, '.');
    assert HostName(rest);
    var s := local + ['@'] + rest;
    SplitAtFirst(local, rest, '@');
    assert ValidEmail(s);
    Reassociate(local, "@", domain, ".", tld);
  }

  /** Everything recognised is described by the pattern, split at its `@` and its last dot. */
  lemma PartsOfValid(s: string) returns (local: string, domain: string, tld: string)
    requires ValidEmail(s)
    ensures s == local + "@" + domain + "." + tld
    ensures LocalPart(local) && DomainPart(domain) && TopLevel(tld)
  {
    var at := IndexOf(s, '@').value;
    var rest := s[at + 1..];
    var dot := LastIndexOf(rest, '.').value;
    local, domain, tld := s[..at], rest[..dot], rest[dot + 1..];
    SplitAround(rest, dot);
    SplitAround(s, at);
    Reassociate(local, "@", domain, ".", tld);
  }

  lemma SplitAround(s: string, i: nat)
    requires i < |s|
    ensures s == s[..i] + [s[i]] + s[i + 1..]
  {
  }

  /** A valid address has exactly one `@`. */
  lemma ValidHasOneAt(s: string)
    requires ValidEmail(s)
    ensures Occurrences(s, '@') == 1
  {
    var local, domain, tld := PartsOfValid(s);
    forall i | 0 <= i < |local| ensures local[i] != '@' { assert IsLocalChar(local[i]); }
    forall i | 0 <= i < |domain| ensures domain[i] != '@' { assert IsDomainChar(domain[i]); }
    forall i | 0 <= i < |tld| ensures tld[i] != '@' { assert IsAsciiLetter(tld[i]); }
    NoOccurrences(local, '@');
    NoOccurrences(domain, '@');
    NoOccurrences(tld, '@');
    assert Occurrences("@", '@') == 1;
    assert Occurrences(".", '@') == 0;
    OccurrencesConcat(local, "@", '@');
    OccurrencesConcat(local + "@", domain, '@');
    OccurrencesConcat(local + "@" + domain, ".", '@');
    OccurrencesConcat(local + "@" + domain + ".", tld, '@');
  }

  lemma DomainPartConcat(a: string, b: string)
    requires DomainPart(a) && DomainPart(b)
    ensures DomainPart(a + b)
  {
    forall i | 0 <= i < |a + b| ensures IsDomainChar((a + b)[i]) {
      if i < |a| { assert (a + b)[i] == a[i]; } else { assert (a + b)[i] == b[i - |a|]; }
    }
  }

  lemma ExampleParts()
    ensures LocalPart("john") && DomainPart("example") && TopLevel("com")
  {
  }

  lemma ExampleJoined()
    ensures "john" + "@" + "example" + "." + "com" == "john@example.com"
  {
  }

  /** An address the package's own tests accept. */
  lemma AcceptedExample()
    ensures ValidEmail("john@example.com")
  {
    ExampleParts();
    ValidFromParts("john", "example", "com");
    ExampleJoined();
  }

  lemma DottedDomain()
    ensures DomainPart("domain.co")
  {
    assert DomainPart("domain");
    assert DomainPart(".");
    DomainPartConcat("domain", ".");
    assert "domain" + "." == "domain.";
    assert DomainPart("co");
    DomainPartConcat("domain.", "co");
    assert "domain." + "co" == "domain.co";
  }

  lemma DottedParts()
    ensures LocalPart("user") && DomainPart("domain.co") && TopLevel("th")
  {
    DottedDomain();
  }

  lemma DottedJoined()
    ensures "user" + "@" + "domain.co" + "." + "th" == "user@domain.co.th"
  {
  }

  /** An address with a dotted domain the package's own tests accept. */
  lemma AcceptedDottedExample()
    ensures ValidEmail("user@domain.co.th")
  {
    DottedParts();
    ValidFromParts("user", "domain.co", "th");
    DottedJoined();
  }

  /** Two inputs the package's own tests reject. */
  lemma RejectedExamples()
    ensures !ValidEmail("invalid@")
    ensures !ValidEmail("")
  {
    var s := "invalid@";
    assert s[..7] == "invalid";
    IndexOfAt(s, '@', 7);
    assert s[8..] == [];
  }

  // ---------------------------------------------------------------------
  // The user record

  class User {
    var email: string
    var password: string

    constructor(email: string, password: string)
      ensures this.email == email && this.password == password
    {
      this.email := email;
      this.password := password;
    }

    /** `IsEmailValid`. */
    predicate IsEmailValid()
      reads this
    {
      ValidEmail(email)
    }

    /**
     * `SetPassword`: on success the stored password is the digest of
     * `raw`; when hashing fails (`salt` is None) nothing changes.
     */
    method SetPassword(raw: string, salt: Option<Salt>) returns (err: bool)
      modifies this`password
      ensures err <==> salt.None?
      ensures err ==> password == old(password)
      ensures !err ==> password == Hash(raw, salt.value)
    {
      if salt.None? {
        return true;
      }
      password := Hash(raw, salt.value);
      err := false;
    }

    /** `CheckPassword`: the stored digest verifies against `raw`. */
    predicate CheckPassword(raw: string)
      reads this
    {
      Matches(password, raw)
    }
  }

  /**
   * After a successful `SetPassword(p)` the stored value is not `p`, `p`
   * checks, and every other password does not.
   */
  method SetThenCheck(u: User, p: string, q: string, salt: Salt)
    modifies u
    ensures u.password != p
    ensures u.CheckPassword(p)
    ensures q != p ==> !u.CheckPassword(q)
  {
    var err := u.SetPassword(p, Some(salt));
    HashThenMatch(p, salt, p);
    HashThenMatch(p, salt, q);
  }
}
