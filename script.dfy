/**
 * webapp/js/script.js: the pure helpers of the browser script, namely HTML escaping, the
 * duration display, the form-field patterns, the password-strength score and the checks
 * made before the registration form is sent. The DOM updates are not modelled.
 */
module Script {
  import opened Wrappers
  import opened Text
  import opened Clock
  import Passwords
  import Users

  // ---------------------------------------------------------------- escapeHtml

  /** The replacement for one character: one of the five entities, or the character itself. */
  function EscapeChar(c: char): (r: string)
    ensures |r| >= 1
    ensures c !in "&<>\"'" ==> r == [c]
  {
    match c
    case '&' => "&amp;"
    case '<' => "&lt;"
    case '>' => "&gt;"
    case '"' => "&quot;"
    case '\'' => "&#039;"
    case _ => [c]
  }

  /** escapeHtml: every character replaced in one pass, left to right. */
  function EscapeHtml(text: string): (r: string)
    ensures |r| >= |text|
  {
    if text == [] then [] else EscapeChar(text[0]) + EscapeHtml(text[1..])
  }

  predicate Markup(c: char)
  {
    c == '<' || c == '>' || c == '"' || c == '\''
  }

  /** The escaped text holds none of the characters that end a tag or an attribute. */
  lemma {:induction false} EscapedHasNoMarkup(text: string)
    ensures forall i :: 0 <= i < |EscapeHtml(text)| ==> !Markup(EscapeHtml(text)[i])
    decreases |text|
  {
    if text != [] {
      EscapedHasNoMarkup(text[1..]);
      var head, tail := EscapeChar(text[0]), EscapeHtml(text[1..]);
      assert forall i :: 0 <= i < |head| ==> !Markup(head[i]);
      forall i | 0 <= i < |head + tail| ensures !Markup((head + tail)[i]) {
        if i >= |head| {
          assert (head + tail)[i] == tail[i - |head|];
        }
      }
    }
  }

  /** The decoder for the five entities escapeHtml writes; any other '&' stands for itself. */
  function Unescape(s: string): string
    decreases |s|
  {
    if s == [] then []
    else if StartsWith(s, "&amp;") then "&" + Unescape(s[5..])
    else if StartsWith(s, "&lt;") then "<" + Unescape(s[4..])
    else if StartsWith(s, "&gt;") then ">" + Unescape(s[4..])
    else if StartsWith(s, "&quot;") then "\"" + Unescape(s[6..])
    else if StartsWith(s, "&#039;") then "'" + Unescape(s[6..])
    else [s[0]] + Unescape(s[1..])
  }

  /** Decoding one escaped character in front of more text gives the character back. */
  lemma UnescapeChar(c: char, rest: string)
    ensures Unescape(EscapeChar(c) + rest) == [c] + Unescape(rest)
  {
    match c
    case '&' => UnescapeEntity("&amp;", '&', rest);
    case '<' => UnescapeEntity("&lt;", '<', rest);
    case '>' => UnescapeEntity("&gt;", '>', rest);
    case '"' => UnescapeEntity("&quot;", '"', rest);
    case '\'' => UnescapeEntity("&#039;", '\'', rest);
    case _ => UnescapeOther(c, rest);
  }

  /** A character other than '&' starts no entity and is read back as itself. */
  lemma UnescapeOther(c: char, rest: string)
    requires c != '&'
    ensures Unescape([c] + rest) == [c] + Unescape(rest)
  {
    var s := [c] + rest;
    assert s[0] == c && s[1..] == rest;
    assert forall e: string :: |e| > 0 && e[0] == '&' ==> !StartsWith(s, e) by {
      forall e: string | |e| > 0 && e[0] == '&' ensures !StartsWith(s, e) {
        if |e| <= |s| { assert s[..|e|][0] == c; }
      }
    }
  }

  /** Each entity is read back as its character, whatever follows it. */
  lemma UnescapeEntity(entity: string, c: char, rest: string)
    requires (entity, c) in {("&amp;", '&'), ("&lt;", '<'), ("&gt;", '>'), ("&quot;", '"'), ("&#039;", '\'')}
    ensures Unescape(entity + rest) == [c] + Unescape(rest)
  {
    var s := entity + rest;
    assert s[..|entity|] == entity;
    assert s[|entity|..] == rest;
    assert s[1] == entity[1];
    assert s[2] == entity[2];
  }

  /** Escaping loses nothing: decoding the escaped text gives the text back. */
  lemma {:induction false} EscapeRoundTrip(text: string)
    ensures Unescape(EscapeHtml(text)) == text
    decreases |text|
  {
    if text != [] {
      UnescapeChar(text[0], EscapeHtml(text[1..]));
      EscapeRoundTrip(text[1..]);
      assert [text[0]] + text[1..] == text;
    }
  }

  // ---------------------------------------------------------------- formatDuration

  /**
   * formatDuration for a whole number of seconds: `Math.floor` of the quotients, with
   * JavaScript's `%` keeping the sign of the dividend, each field padded to two characters.
   */
  function FormatDuration(seconds: int): (r: string)
    ensures |r| >= 8
  {
    var hrs := seconds / 3600;
    var mins := TruncRem(seconds, 3600) / 60;
    var secs := TruncRem(seconds, 60);
    Pad2(hrs) + [COLON] + Pad2(mins) + [COLON] + Pad2(secs)
  }

  /** A non-negative duration reads back: three fields, minutes and seconds below 60. */
  lemma FormatDurationReadsBack(seconds: nat)
    ensures var f := Fields(FormatDuration(seconds));
            f == Some([seconds / 3600, (seconds % 3600) / 60, seconds % 60]) &&
            f.value[1] < 60 && f.value[2] < 60 && Seconds(f.value) == seconds
  {
    HoursMinutesSeconds(seconds);
    ThreeFields(seconds / 3600, (seconds % 3600) / 60, seconds % 60);
  }

  // ---------------------------------------------------------------- field patterns

  /** The characters `String.prototype.trim` removes and `\s` matches. */
  predicate IsJsSpace(c: char)
  {
    c == '\t' || c == '\n' || c == '\U{000B}' || c == '\U{000C}' || c == '\r' || c == ' ' ||
    c == '\U{00A0}' || c == '\U{1680}' || ('\U{2000}' <= c <= '\U{200A}') ||
    c == '\U{2028}' || c == '\U{2029}' || c == '\U{202F}' || c == '\U{205F}' ||
    c == '\U{3000}' || c == '\U{FEFF}'
  }

  function JsTrimStart(s: string): string
  {
    if s != [] && IsJsSpace(s[0]) then JsTrimStart(s[1..]) else s
  }

  function JsTrimEnd(s: string): string
  {
    if s != [] && IsJsSpace(s[|s| - 1]) then JsTrimEnd(s[..|s| - 1]) else s
  }

  /** `String.prototype.trim`. */
  function JsTrim(s: string): string
  {
    JsTrimEnd(JsTrimStart(s))
  }

  /** Text that neither starts nor ends with a space is left as it is. */
  lemma JsTrimKeeps(s: string)
    requires s != [] && !IsJsSpace(s[0]) && !IsJsSpace(s[|s| - 1])
    ensures JsTrim(s) == s
  {
  }

  predicate IsWordChar(c: char)
  {
    IsAlnum(c) || c == '_'
  }

  /** validateUsername: the trimmed value matches `^[a-zA-Z0-9_]{3,50}$`. */
  predicate ValidUsername(value: string)
  {
    var u := JsTrim(value);
    3 <= |u| <= 50 && forall i :: 0 <= i < |u| ==> IsWordChar(u[i])
  }

  /**
   * Every name the server's format check accepts passes the page's check; the page also lets
   * through names of 21 to 50 characters, which the server refuses.
   */
  lemma ServerNamePassesPage(name: string)
    requires Users.IsValidUsername(Some(name))
    ensures ValidUsername(name)
  {
    assert !IsJsSpace(name[0]) by { assert Users.IsWordChar(name[0]); }
    assert !IsJsSpace(name[|name| - 1]) by { assert Users.IsWordChar(name[|name| - 1]); }
    JsTrimKeeps(name);
  }

  /** A 21-character name passes the page and is refused by the server. */
  lemma PageAllowsLongerNames()
    ensures var name := "abcdefghijklmnopqrstu";
            ValidUsername(name) && !Users.IsValidUsername(Some(name))
  {
    var name := "abcdefghijklmnopqrstu";
    JsTrimKeeps(name);
  }

  /** `[^\s@]+` */
  predicate Plain(s: string)
  {
    s != [] && forall i :: 0 <= i < |s| ==> !IsJsSpace(s[i]) && s[i] != '@'
  }

  /** validateEmail: the trimmed value matches `^[^\s@]+@[^\s@]+\.[^\s@]+$`. */
  predicate ValidEmail(value: string)
  {
    var e := JsTrim(value);
    exists at, dot :: 0 < at < dot < |e| - 1 && e[at] == '@' && e[dot] == '.' &&
                      Plain(e[..at]) && Plain(e[at + 1..dot]) && Plain(e[dot + 1..])
  }

  /** Any three plain parts joined by an '@' and a dot make an address the page accepts. */
  lemma EmailOfParts(local: string, domain: string, top: string)
    requires Plain(local) && Plain(domain) && Plain(top)
    ensures ValidEmail(local + "@" + domain + "." + top)
  {
    var e := local + "@" + domain + "." + top;
    var at, dot := |local|, |local| + 1 + |domain|;
    assert e[0] == local[0];
    assert e[|e| - 1] == top[|top| - 1];
    JsTrimKeeps(e);
    assert e[..at] == local;
    assert e[at + 1..dot] == domain;
    assert e[dot + 1..] == top;
    assert e[at] == '@' && e[dot] == '.';
  }

  /** An address without a dot after the '@' fails. */
  lemma EmailWithoutDotRefused()
    ensures !ValidEmail("user@example")
  {
    var f := "user@example";
    JsTrimKeeps(f);
    assert forall k :: 0 <= k < |f| ==> f[k] != '.';
  }

  /** An address with a second '@' fails. */
  lemma EmailWithTwoAtsRefused()
    ensures !ValidEmail("a@b@c.d")
  {
    var g := "a@b@c.d";
    JsTrimKeeps(g);
    forall at, dot | 0 < at < dot < |g| - 1 && g[at] == '@' && g[dot] == '.'
      ensures !(Plain(g[..at]) && Plain(g[at + 1..dot]))
    {
      assert dot == 5;
      if at == 1 {
        assert g[at + 1..dot][1] == '@';
      } else {
        assert g[..at][1] == '@';
      }
    }
  }

  // ---------------------------------------------------------------- password strength

  predicate HasLower(p: string) { exists i :: 0 <= i < |p| && IsLower(p[i]) }
  predicate HasUpper(p: string) { exists i :: 0 <= i < |p| && IsUpper(p[i]) }
  predicate HasDigit(p: string) { exists i :: 0 <= i < |p| && IsDigit(p[i]) }
  predicate HasSymbol(p: string) { exists i :: 0 <= i < |p| && !IsAlnum(p[i]) }

  function Point(b: bool): nat { if b then 1 else 0 }

  /**
   * updatePasswordStrength's score: a point each for six and for ten characters, for lower
   * and upper case together, for a digit and for a character that is not a letter or digit.
   */
  function StrengthScore(password: string): (score: nat)
    ensures score <= 5
    ensures |password| < 6 ==> score <= 3
  {
    Point(|password| >= 6) + Point(|password| >= 10) +
    Point(HasLower(password) && HasUpper(password)) + Point(HasDigit(password)) + Point(HasSymbol(password))
  }

  /** The colour class for a score. */
  function StrengthColour(score: nat): (colour: string)
    requires score <= 5
    ensures colour in {"bg-secondary", "bg-danger", "bg-warning", "bg-success"}
  {
    if score == 0 then "bg-secondary"
    else if score <= 2 then "bg-danger"
    else if score == 3 then "bg-warning"
    else "bg-success"
  }

  /** The colours order the scores: grey only for nothing, green only from four points on. */
  lemma ColourBands(score: nat)
    requires score <= 5
    ensures StrengthColour(score) == "bg-secondary" <==> score == 0
    ensures StrengthColour(score) == "bg-danger" <==> 1 <= score <= 2
    ensures StrengthColour(score) == "bg-warning" <==> score == 3
    ensures StrengthColour(score) == "bg-success" <==> score >= 4
  {
  }

  /**
   * A password the server's strength rule accepts scores at least three points on the page,
   * so it is never shown grey or red.
   */
  lemma ServerStrongShowsAtLeastAmber(password: string)
    requires Passwords.Strong(Some(password))
    ensures StrengthScore(password) >= 3
    ensures StrengthColour(StrengthScore(password)) in {"bg-warning", "bg-success"}
  {
    var classes := Passwords.ClassesIn(password);
    Passwords.CountClasses(classes);
    KindPresent(password, Passwords.Upper);
    KindPresent(password, Passwords.Lower);
    KindPresent(password, Passwords.Digit);
    KindPresent(password, Passwords.Other);
  }

  /** A kind of character the server counts is present exactly when the page's test finds it. */
  lemma KindPresent(password: string, k: Passwords.CharClass)
    ensures k == Passwords.Upper ==> (k in Passwords.ClassesIn(password) <==> HasUpper(password))
    ensures k == Passwords.Lower ==> (k in Passwords.ClassesIn(password) <==> HasLower(password))
    ensures k == Passwords.Digit ==> (k in Passwords.ClassesIn(password) <==> HasDigit(password))
    ensures k == Passwords.Other ==> (k in Passwords.ClassesIn(password) <==> HasSymbol(password))
  {
    Passwords.ClassesInMeans(password, k);
  }

  // ---------------------------------------------------------------- the registration form

  /**
   * The registration form's fields; None for a field the form does not have, which is then
   * not checked.
   */
  datatype RegisterForm = RegisterForm(username: Option<string>, email: Option<string>,
                                       password: Option<string>, confirm: Option<string>)

  /**
   * validateRegisterForm: every present field is checked (the checks do not stop at the
   * first failure); the password rules apply only when both password fields exist.
   */
  function ValidateRegisterForm(form: RegisterForm): (ok: bool)
    ensures form.password.Some? && form.confirm.Some? && form.password != form.confirm ==> !ok
    ensures form.password.Some? && form.confirm.Some? && |form.password.value| < 6 ==> !ok
  {
    var valid := true;
    var valid := if form.username.Some? && !ValidUsername(form.username.value) then false else valid;
    var valid := if form.email.Some? && !ValidEmail(form.email.value) then false else valid;
    if form.password.Some? && form.confirm.Some? then
      var valid := if form.password.value != form.confirm.value then false else valid;
      if |form.password.value| < 6 then false else valid
    else valid
  }

  /** The form passes exactly when every present check passes. */
  lemma RegisterFormPasses(form: RegisterForm)
    ensures ValidateRegisterForm(form) <==>
              (form.username.Some? ==> ValidUsername(form.username.value)) &&
              (form.email.Some? ==> ValidEmail(form.email.value)) &&
              (form.password.Some? && form.confirm.Some? ==>
                 form.password == form.confirm && |form.password.value| >= 6)
  {
  }
}
