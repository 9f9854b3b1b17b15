/**
 * util/PasswordUtil.java: the strength rule, the rehash check on a stored BCrypt hash, and
 * the argument checks made before the BCrypt library is called. The library itself is not
 * part of this model: what it returns is a parameter.
 */
module Passwords {
  import opened Wrappers
  import opened Text

  const WORK_FACTOR: int := 10
  const MIN_STRONG_LENGTH: nat := 8
  const HASH_SEPARATOR: char := '$'

  // ---------------------------------------------------------------- strength

  /** The four kinds of character the strength rule counts; every character is of exactly one. */
  datatype CharClass = Upper | Lower | Digit | Other

  /** Upper case first, then lower case, then digits; everything else is "other". */
  function ClassOf(c: char): (k: CharClass)
    ensures k == Upper <==> IsUpper(c)
    ensures k == Lower <==> IsLower(c)
    ensures k == Digit <==> IsDigit(c)
  {
    if IsUpper(c) then Upper else if IsLower(c) then Lower else if IsDigit(c) then Digit else Other
  }

  /** The kinds of character that occur in `s`. */
  function ClassesIn(s: string): set<CharClass>
  {
    if s == [] then {} else ClassesIn(s[..|s| - 1]) + {ClassOf(s[|s| - 1])}
  }

  /** A kind is in ClassesIn(s) exactly when some character of `s` is of that kind. */
  lemma {:induction false} ClassesInMeans(s: string, k: CharClass)
    ensures k in ClassesIn(s) <==> exists i :: 0 <= i < |s| && ClassOf(s[i]) == k
    decreases |s|
  {
    if s != [] {
      var front := s[..|s| - 1];
      ClassesInMeans(front, k);
      if exists i :: 0 <= i < |front| && ClassOf(front[i]) == k {
        var i :| 0 <= i < |front| && ClassOf(front[i]) == k;
        assert s[i] == front[i];
      }
      if exists i :: 0 <= i < |s| && ClassOf(s[i]) == k {
        var i :| 0 <= i < |s| && ClassOf(s[i]) == k;
        if i < |front| {
          assert front[i] == s[i];
        }
      }
    }
  }

  /** isStrongPassword: at least eight characters, of at least three of the four kinds. */
  predicate Strong(password: Option<string>)
  {
    password.Some? && |password.value| >= MIN_STRONG_LENGTH && |ClassesIn(password.value)| >= 3
  }

  function Point(b: bool): nat { if b then 1 else 0 }

  /** The number of kinds present is the number of kinds found one by one. */
  lemma CountClasses(classes: set<CharClass>)
    ensures |classes| == Point(Upper in classes) + Point(Lower in classes) +
                         Point(Digit in classes) + Point(Other in classes)
  {
    var s1 := classes - {Upper};
    var s2 := s1 - {Lower};
    var s3 := s2 - {Digit};
    var s4 := s3 - {Other};
    forall k | k in s4 ensures false {
      match k {
        case Upper =>
        case Lower =>
        case Digit =>
        case Other =>
      }
    }
    assert s4 == {};
    assert |s1| == |classes| - Point(Upper in classes);
    assert |s2| == |s1| - Point(Lower in classes);
    assert |s3| == |s2| - Point(Digit in classes);
    assert |s4| == |s3| - Point(Other in classes);
  }

  /**
   * isStrongPassword, as the code runs it: a null or short password is refused at once;
   * otherwise one pass sets a flag per kind of character, and three flags of four are needed.
   */
  method IsStrongPassword(password: Option<string>) returns (strong: bool)
    ensures strong == Strong(password)
  {
    if password.None? || |password.value| < MIN_STRONG_LENGTH {
      return false;
    }
    var p := password.value;
    var hasUpper, hasLower, hasDigit, hasOther := false, false, false, false;
    var i := 0;
    while i < |p|
      invariant 0 <= i <= |p|
      invariant hasUpper == (Upper in ClassesIn(p[..i]))
      invariant hasLower == (Lower in ClassesIn(p[..i]))
      invariant hasDigit == (Digit in ClassesIn(p[..i]))
      invariant hasOther == (Other in ClassesIn(p[..i]))
    {
      assert p[..i + 1][..i] == p[..i];
      var c := p[i];
      if IsUpper(c) {
        hasUpper := true;
      } else if IsLower(c) {
        hasLower := true;
      } else if IsDigit(c) {
        hasDigit := true;
      } else {
        hasOther := true;
      }
      i := i + 1;
    }
    assert p[..i] == p;
    var score := 0;
    if hasUpper { score := score + 1; }
    if hasLower { score := score + 1; }
    if hasDigit { score := score + 1; }
    if hasOther { score := score + 1; }
    CountClasses(ClassesIn(p));
    return score >= 3;
  }

  /** Eight characters or more of three kinds are strong; shorter ones never are. */
  lemma StrongExamples()
    ensures Strong(Some("Abcdef12"))
    ensures !Strong(Some("Abc1!"))
    ensures !Strong(Some("abcdefgh"))
  {
    var s := "Abcdef12";
    ClassesInMeans(s, Upper);
    ClassesInMeans(s, Lower);
    ClassesInMeans(s, Digit);
    assert ClassOf(s[0]) == Upper && ClassOf(s[1]) == Lower && ClassOf(s[6]) == Digit;
    CountClasses(ClassesIn(s));
    var t := "abcdefgh";
    forall k | k in ClassesIn(t) ensures k == Lower {
      ClassesInMeans(t, k);
    }
    CountClasses(ClassesIn(t));
  }

  // ---------------------------------------------------------------- rehash

  /**
   * needsRehash: true for a null or blank hash, for fewer than four '$'-separated parts and
   * for a cost part that is not an int; otherwise true exactly when the cost is below 10.
   * A hash is kept only when its third part reads as a cost of at least 10.
   */
  function NeedsRehash(hashed: Option<string>): (r: bool)
    ensures NullOrBlank(hashed) ==> r
    ensures !r ==> var parts := JavaSplit(hashed.value, HASH_SEPARATOR);
                   |parts| >= 4 && ParseInt(parts[2]).Some? && ParseInt(parts[2]).value >= WORK_FACTOR
  {
    if NullOrBlank(hashed) then true
    else
      var parts := JavaSplit(hashed.value, HASH_SEPARATOR);
      if |parts| < 4 then true
      else
        match ParseInt(parts[2])
        case None => true
        case Some(cost) => cost < WORK_FACTOR
  }

  /** A BCrypt-shaped hash, "$<version>$<two-digit cost>$<salt and digest>". */
  function BcryptHash(version: string, cost: nat, rest: string): string
  {
    [] + [HASH_SEPARATOR] + (version + [HASH_SEPARATOR] + (Pad2(cost) + [HASH_SEPARATOR] + rest))
  }

  /** For a hash of that shape the check reads the cost back and compares it with 10. */
  lemma RehashReadsCost(version: string, cost: nat, rest: string)
    requires HASH_SEPARATOR !in version && HASH_SEPARATOR !in rest && rest != []
    requires cost < 100
    ensures NeedsRehash(Some(BcryptHash(version, cost, rest))) <==> cost < WORK_FACTOR
  {
    var h := BcryptHash(version, cost, rest);
    assert h[0] == HASH_SEPARATOR;
    TrimFacts(h);
    SplitBcryptHash(version, cost, rest);
    ParseBoundedOfPad2(cost);
  }

  /** The hash splits at '$' into an empty piece, the version, the cost and the rest. */
  lemma SplitBcryptHash(version: string, cost: nat, rest: string)
    requires HASH_SEPARATOR !in version && HASH_SEPARATOR !in rest && rest != []
    ensures JavaSplit(BcryptHash(version, cost, rest), HASH_SEPARATOR) == [[], version, Pad2(cost), rest]
  {
    var h := BcryptHash(version, cost, rest);
    var pc := Pad2(cost);
    assert HASH_SEPARATOR !in pc by {
      forall k | 0 <= k < |pc| ensures pc[k] != HASH_SEPARATOR {
        assert IsDigit(pc[k]);
      }
    }
    SplitFourFields(version, pc, rest);
    assert HASH_SEPARATOR in h by { assert h[0] == HASH_SEPARATOR; }
  }

  /** Three separator-free fields after a leading separator split into four pieces. */
  lemma SplitFourFields(version: string, middle: string, rest: string)
    requires HASH_SEPARATOR !in version && HASH_SEPARATOR !in middle && HASH_SEPARATOR !in rest
    ensures SplitAll([] + [HASH_SEPARATOR] + (version + [HASH_SEPARATOR] + (middle + [HASH_SEPARATOR] + rest)),
                     HASH_SEPARATOR) == [[], version, middle, rest]
  {
    var tail2 := middle + [HASH_SEPARATOR] + rest;
    var tail1 := version + [HASH_SEPARATOR] + tail2;
    SplitTwoFields(middle, rest);
    SplitAtFirst(version, HASH_SEPARATOR, tail2);
    SplitAtFirst([], HASH_SEPARATOR, tail1);
  }

  lemma SplitTwoFields(middle: string, rest: string)
    requires HASH_SEPARATOR !in middle && HASH_SEPARATOR !in rest
    ensures SplitAll(middle + [HASH_SEPARATOR] + rest, HASH_SEPARATOR) == [middle, rest]
  {
    SplitAtFirst(middle, HASH_SEPARATOR, rest);
    assert SplitAll(rest, HASH_SEPARATOR) == [rest];
  }

  /** The two-digit cost parses back as the number. */
  lemma ParseBoundedOfPad2(n: nat)
    requires n < 100
    ensures ParseInt(Pad2(n)) == Some(n)
  {
    var s := Pad2(n);
    assert s[0] != '-' && s[0] != '+' by { assert IsDigit(s[0]); }
  }

  // ---------------------------------------------------------------- library guards

  const PASSWORD_MISSING: string := "Password cannot be null or empty"
  const PLAIN_MISSING: string := "Plain password cannot be null or empty"
  const HASH_MISSING: string := "Hashed password cannot be null or empty"

  /**
   * hashPassword: a null or blank password is refused with an IllegalArgumentException; otherwise the
   * library's hash, given here as `hash`, is returned.
   */
  function HashPassword(plain: Option<string>, hash: string): (r: Result<string>)
    ensures r.Err? <==> NullOrBlank(plain)
    ensures r.Err? ==> r.error == PASSWORD_MISSING
    ensures r.Ok? ==> r.value == hash
  {
    if NullOrBlank(plain) then Err(PASSWORD_MISSING) else Ok(hash)
  }

  /**
   * checkPassword: the plain password is checked first, then the stored hash; the
   * library's verdict (None when it throws) decides the rest, a throw counting as no match.
   */
  function CheckPassword(plain: Option<string>, hashed: Option<string>, verdict: Option<bool>): (r: Result<bool>)
    ensures r.Err? <==> NullOrBlank(plain) || NullOrBlank(hashed)
    ensures r.Err? ==> r.error == (if NullOrBlank(plain) then PLAIN_MISSING else HASH_MISSING)
    ensures r.Ok? ==> (r.value <==> verdict == Some(true))
  {
    if NullOrBlank(plain) then Err(PLAIN_MISSING)
    else if NullOrBlank(hashed) then Err(HASH_MISSING)
    else Ok(verdict.GetOr(false))
  }

  /** The library is only consulted once both arguments pass: the refusals do not depend on it. */
  lemma GuardsPrecedeLibrary(plain: Option<string>, hashed: Option<string>, v1: Option<bool>, v2: Option<bool>)
    requires NullOrBlank(plain) || NullOrBlank(hashed)
    ensures CheckPassword(plain, hashed, v1) == CheckPassword(plain, hashed, v2)
  {
  }
}
