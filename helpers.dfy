/** Model of helpers.php: the input sanitiser and the read-once flash store. */
module Helpers {
  import opened Php

  // ---------------------------------------------------------------------------
  // sanitize(): htmlspecialchars(stripslashes(trim($data)))
  // ---------------------------------------------------------------------------

  /** The characters PHP's trim() strips by default: space, tab, line feed,
      carriage return, NUL and vertical tab. */
  predicate IsTrimSpace(c: char) {
    c == ' ' || c == '\t' || c == '\n' || c == '\r' || c == '\0' || c as int == 11
  }

  /** The characters htmlspecialchars() replaces by entities, with PHP 8.1's
      default flags (ENT_QUOTES | ENT_SUBSTITUTE | ENT_HTML401). */
  predicate IsHtmlSpecial(c: char) {
    c == '&' || c == '"' || c == '\'' || c == '<' || c == '>'
  }

  /** The characters that can open or close a tag or an attribute value. */
  predicate IsMarkup(c: char) {
    c == '"' || c == '\'' || c == '<' || c == '>'
  }

  /** Strips trim() characters from the front: what is left is a suffix of
      `s`, everything cut off is white space, and the rest does not start with it. */
  function TrimLeft(s: string): (r: string)
    ensures |r| <= |s| && r == s[|s| - |r|..]
    ensures forall k :: 0 <= k < |s| - |r| ==> IsTrimSpace(s[k])
    ensures r == [] || !IsTrimSpace(r[0])
  {
    if s != [] && IsTrimSpace(s[0]) then
      var r := TrimLeft(s[1..]);
      assert s[1..][|s| - 1 - |r|..] == s[|s| - |r|..];
      r
    else s
  }

  /** Strips trim() characters from the back, symmetrically. */
  function TrimRight(s: string): (r: string)
    ensures |r| <= |s| && r == s[..|r|]
    ensures forall k :: |r| <= k < |s| ==> IsTrimSpace(s[k])
    ensures r == [] || !IsTrimSpace(r[|r| - 1])
  {
    if s != [] && IsTrimSpace(s[|s| - 1]) then
      var r := TrimRight(s[..|s| - 1]);
      assert s[..|s| - 1][..|r|] == s[..|r|];
      r
    else s
  }

  /** PHP's trim($s) with the default character list. */
  function Trim(s: string): (r: string)
    ensures |r| <= |s|
    ensures r == [] || (!IsTrimSpace(r[0]) && !IsTrimSpace(r[|r| - 1]))
  {
    TrimRight(TrimLeft(s))
  }

  /** A prefix `r` of a suffix `l` of `s` is the infix of `s` at |s| - |l|;
      what lies outside it in `l` lies outside it in `s`. */
  lemma InfixOfSuffix(s: string, l: string, r: string)
    requires |l| <= |s| && l == s[|s| - |l|..]
    requires |r| <= |l| && r == l[..|r|]
    requires forall k :: |r| <= k < |l| ==> IsTrimSpace(l[k])
    ensures r == s[|s| - |l|..|s| - |l| + |r|]
    ensures forall k :: |s| - |l| + |r| <= k < |s| ==> IsTrimSpace(s[k])
  {
    var i := |s| - |l|;
    forall k | i + |r| <= k < |s| ensures IsTrimSpace(s[k]) {
      assert s[k] == l[k - i];
    }
  }

  /** trim() cuts a run of white space off each end and keeps what lies
      between unchanged: the result is the infix of `s` starting at `i`, and
      every character before or after it is white space. */
  lemma TrimInfix(s: string) returns (i: nat)
    ensures i + |Trim(s)| <= |s| && Trim(s) == s[i..i + |Trim(s)|]
    ensures forall k :: 0 <= k < i ==> IsTrimSpace(s[k])
    ensures forall k :: i + |Trim(s)| <= k < |s| ==> IsTrimSpace(s[k])
  {
    var l := TrimLeft(s);
    var r := TrimRight(l);
    assert Trim(s) == r;
    i := |s| - |l|;
    InfixOfSuffix(s, l, r);
    assert forall k :: 0 <= k < i ==> IsTrimSpace(s[k]);
    assert r == s[i..i + |r|];
  }

  /** PHP's stripslashes($s): a backslash is dropped and the character after
      it kept as it is, except that `\0` becomes a NUL character; a lone
      backslash at the end disappears. */
  function StripSlashes(s: string): (r: string)
    ensures |r| <= |s|
  {
    if s == [] then []
    else if s[0] != '\\' then [s[0]] + StripSlashes(s[1..])
    else if |s| == 1 then []
    else (if s[1] == '0' then "\0" else [s[1]]) + StripSlashes(s[2..])
  }

  /** PHP's addslashes($s), the escaping stripslashes() undoes: a backslash
      before each `'`, `"` and `\`, and a NUL written as `\0`. */
  function AddSlashes(s: string): (r: string)
    ensures |r| >= |s|
  {
    if s == [] then []
    else (if s[0] == '\0' then "\\0"
          else if s[0] == '\'' || s[0] == '"' || s[0] == '\\' then ['\\', s[0]]
          else [s[0]]) + AddSlashes(s[1..])
  }

  /** The replacement htmlspecialchars() makes for one character. */
  function EscapeChar(c: char): (r: string)
    ensures !IsHtmlSpecial(c) <==> r == [c]
    ensures IsHtmlSpecial(c) ==> |r| >= 4 && r[0] == '&' && r[|r| - 1] == ';'
    ensures forall k :: 0 <= k < |r| ==> !IsMarkup(r[k])
  {
    match c
    case '&' => "&amp;"
    case '"' => "&quot;"
    case '\'' => "&#039;"
    case '<' => "&lt;"
    case '>' => "&gt;"
    case _ => [c]
  }

  /** PHP's htmlspecialchars($s) with the default flags and double_encode on.
      The invalid-UTF-8 substitution of ENT_SUBSTITUTE is not modelled. */
  function HtmlSpecialChars(s: string): (r: string)
    ensures |r| >= |s|
    ensures |r| == |s| <==> forall k :: 0 <= k < |s| ==> !IsHtmlSpecial(s[k])
  {
    if s == [] then [] else EscapeChar(s[0]) + HtmlSpecialChars(s[1..])
  }

  /** The inverse of HtmlSpecialChars on its five entities: each of them is
      turned back into its character, and everything else is kept. */
  function HtmlSpecialCharsDecode(s: string): (r: string)
    decreases |s|
  {
    if s == [] then []
    else if s[0] != '&' then [s[0]] + HtmlSpecialCharsDecode(s[1..])
    else if StartsWith(s, "&amp;") then "&" + HtmlSpecialCharsDecode(s[5..])
    else if StartsWith(s, "&quot;") then "\"" + HtmlSpecialCharsDecode(s[6..])
    else if StartsWith(s, "&#039;") then "'" + HtmlSpecialCharsDecode(s[6..])
    else if StartsWith(s, "&lt;") then "<" + HtmlSpecialCharsDecode(s[4..])
    else if StartsWith(s, "&gt;") then ">" + HtmlSpecialCharsDecode(s[4..])
    else "&" + HtmlSpecialCharsDecode(s[1..])
  }

  predicate StartsWith(s: string, prefix: string) {
    |prefix| <= |s| && s[..|prefix|] == prefix
  }

  /** sanitize($data) of helpers.php. The result never contains `<`, `>`,
      `"` or `'`, so it cannot break out of the `value="..."` attribute it is
      echoed into. */
  function Sanitize(data: string): (r: string)
    ensures NoMarkup(r)
  {
    var t := StripSlashes(Trim(data));
    HtmlSpecialCharsNoMarkup(t);
    HtmlSpecialChars(t)
  }

  /** No character of `s` can open or close a tag or an attribute value. */
  predicate NoMarkup(s: string) {
    forall k :: 0 <= k < |s| ==> !IsMarkup(s[k])
  }

  // --- lemmas about the sanitiser ---------------------------------------------

  /** htmlspecialchars() leaves no `<`, `>`, `"` or `'` in its output. */
  lemma {:induction false} HtmlSpecialCharsNoMarkup(s: string)
    ensures NoMarkup(HtmlSpecialChars(s))
  {
    if s != [] {
      HtmlSpecialCharsNoMarkup(s[1..]);
      var head, tail := EscapeChar(s[0]), HtmlSpecialChars(s[1..]);
      assert HtmlSpecialChars(s) == head + tail;
      forall k | 0 <= k < |head + tail| ensures !IsMarkup((head + tail)[k]) {
        if k >= |head| {
          assert (head + tail)[k] == tail[k - |head|];
        }
      }
    }
  }

  /** htmlspecialchars() changes nothing in a string without special characters. */
  lemma {:induction false} HtmlSpecialCharsIdentity(s: string)
    requires forall k :: 0 <= k < |s| ==> !IsHtmlSpecial(s[k])
    ensures HtmlSpecialChars(s) == s
  {
    if s != [] {
      HtmlSpecialCharsIdentity(s[1..]);
      assert s == [s[0]] + s[1..];
    }
  }

  /** Decoding one escaped character followed by more escaped text gives the
      character back and leaves the rest to decode. */
  lemma EscapeCharDecodes(c: char, t: string)
    ensures HtmlSpecialCharsDecode(EscapeChar(c) + t) == [c] + HtmlSpecialCharsDecode(t)
  {
    var s := EscapeChar(c) + t;
    if c == '&' {
      assert s[5..] == t;
    } else if c == '"' {
      assert !StartsWith(s, "&amp;") by { assert s[1] == 'q'; }
      assert s[6..] == t;
    } else if c == '\'' {
      assert !StartsWith(s, "&amp;") && !StartsWith(s, "&quot;") by { assert s[1] == '#'; }
      assert s[6..] == t;
    } else if c == '<' {
      assert !StartsWith(s, "&amp;") && !StartsWith(s, "&quot;") && !StartsWith(s, "&#039;")
        by { assert s[1] == 'l'; }
      assert s[4..] == t;
    } else if c == '>' {
      assert !StartsWith(s, "&amp;") && !StartsWith(s, "&quot;") && !StartsWith(s, "&#039;")
        && !StartsWith(s, "&lt;") by { assert s[1] == 'g'; }
      assert s[4..] == t;
    } else {
      assert s[0] == c && s[1..] == t;
    }
  }

  /** htmlspecialchars() loses no information: decoding gives the input back. */
  lemma {:induction false} HtmlSpecialCharsRoundTrip(s: string)
    ensures HtmlSpecialCharsDecode(HtmlSpecialChars(s)) == s
  {
    if s != [] {
      HtmlSpecialCharsRoundTrip(s[1..]);
      EscapeCharDecodes(s[0], HtmlSpecialChars(s[1..]));
      assert s == [s[0]] + s[1..];
    }
  }

  /** trim() keeps a string that has no white space at either end. */
  lemma TrimIdentity(s: string)
    requires s == [] || (!IsTrimSpace(s[0]) && !IsTrimSpace(s[|s| - 1]))
    ensures Trim(s) == s
  {
  }

  /** stripslashes() keeps a string that has no backslash. */
  lemma {:induction false} StripSlashesIdentity(s: string)
    requires forall k :: 0 <= k < |s| ==> s[k] != '\\'
    ensures StripSlashes(s) == s
  {
    if s != [] {
      StripSlashesIdentity(s[1..]);
      assert s == [s[0]] + s[1..];
    }
  }

  /** stripslashes() undoes addslashes(): no character is lost or changed. */
  lemma {:induction false} StripSlashesRoundTrip(s: string)
    ensures StripSlashes(AddSlashes(s)) == s
  {
    if s != [] {
      StripSlashesRoundTrip(s[1..]);
      var t := AddSlashes(s[1..]);
      var a := AddSlashes(s);
      if s[0] == '\0' || s[0] == '\'' || s[0] == '"' || s[0] == '\\' {
        assert a[0] == '\\' && a[2..] == t;
      } else {
        assert a[0] == s[0] && a[1..] == t;
      }
      assert s == [s[0]] + s[1..];
    }
  }

  /** On a string with no white space at its ends and no backslash, sanitize()
      only escapes. */
  lemma SanitizeOnlyEscapes(data: string)
    requires data == [] || (!IsTrimSpace(data[0]) && !IsTrimSpace(data[|data| - 1]))
    requires forall k :: 0 <= k < |data| ==> data[k] != '\\'
    ensures Sanitize(data) == HtmlSpecialChars(data)
  {
    TrimIdentity(data);
    StripSlashesIdentity(data);
  }

  /** sanitize() is the identity on a string with no white space at its ends,
      no backslash and none of `& < > " '`. */
  lemma SanitizeIdentity(data: string)
    requires data == [] || (!IsTrimSpace(data[0]) && !IsTrimSpace(data[|data| - 1]))
    requires forall k :: 0 <= k < |data| ==> data[k] != '\\' && !IsHtmlSpecial(data[k])
    ensures Sanitize(data) == data
  {
    SanitizeOnlyEscapes(data);
    HtmlSpecialCharsIdentity(data);
  }

  /** An ampersand in front of text without special characters is the only
      thing htmlspecialchars() changes. */
  lemma HtmlSpecialCharsLeadingAmpersand(t: string)
    requires forall k :: 0 <= k < |t| ==> !IsHtmlSpecial(t[k])
    ensures HtmlSpecialChars(['&'] + t) == "&amp;" + t
  {
    assert (['&'] + t)[1..] == t;
    HtmlSpecialCharsIdentity(t);
  }

  /** A string of white space only sanitises to "", which is falsy. */
  lemma SanitizeBlank(data: string)
    requires forall k :: 0 <= k < |data| ==> IsTrimSpace(data[k])
    ensures Sanitize(data) == ""
  {
  }

  /** sanitize("&" + t) is "&amp;" + t for plain text t. */
  lemma SanitizeLeadingAmpersand(t: string)
    requires t == [] || !IsTrimSpace(t[|t| - 1])
    requires forall k :: 0 <= k < |t| ==> t[k] != '\\' && !IsHtmlSpecial(t[k])
    ensures Sanitize(['&'] + t) == "&amp;" + t
  {
    SanitizeOnlyEscapes(['&'] + t);
    HtmlSpecialCharsLeadingAmpersand(t);
  }

  /** Prefixing "amp;" keeps text plain: no special character, no
      backslash, no white space at the end. */
  lemma AmpPrefixPlain(t: string)
    requires t == [] || !IsTrimSpace(t[|t| - 1])
    requires forall k :: 0 <= k < |t| ==> t[k] != '\\' && !IsHtmlSpecial(t[k])
    ensures var rest := "amp;" + t; !IsTrimSpace(rest[|rest| - 1])
    ensures var rest := "amp;" + t; forall k :: 0 <= k < |rest| ==> rest[k] != '\\' && !IsHtmlSpecial(rest[k])
  {
    var rest := "amp;" + t;
    forall k | 0 <= k < |rest| ensures rest[k] != '\\' && !IsHtmlSpecial(rest[k]) {
      if k >= 4 {
        assert rest[k] == t[k - 4];
      }
    }
  }

  /** How the entity "&amp;" splits around a leading ampersand. */
  lemma AmpConcat(t: string)
    ensures ['&'] + ("amp;" + t) == "&amp;" + t
    ensures "&amp;" + ("amp;" + t) == "&amp;amp;" + t
  {
    assert "&amp;" == ['&'] + "amp;";
    assert "&amp;amp;" == "&amp;" + "amp;";
  }

  /** sanitize() is not idempotent: an ampersand is escaped again on every
      pass, so sanitizing "&" + t twice gives "&amp;amp;" + t. */
  lemma SanitizeNotIdempotent(t: string)
    requires t == [] || !IsTrimSpace(t[|t| - 1])
    requires forall k :: 0 <= k < |t| ==> t[k] != '\\' && !IsHtmlSpecial(t[k])
    ensures Sanitize(Sanitize(['&'] + t)) == "&amp;amp;" + t
    ensures Sanitize(Sanitize(['&'] + t)) != Sanitize(['&'] + t)
  {
    SanitizeLeadingAmpersand(t);
    AmpConcat(t);
    AmpPrefixPlain(t);
    SanitizeLeadingAmpersand("amp;" + t);
  }

  /** trim() runs before stripslashes(), so the result can still start with
      white space that a backslash protected. */
  lemma SanitizeEdgeSpaceSurvives()
    ensures Sanitize("\\ x") == " x"
  {
    TrimIdentity("\\ x");
    assert StripSlashes("\\ x") == [' '] + StripSlashes("x");
    StripSlashesIdentity("x");
    HtmlSpecialCharsIdentity(" x");
  }

  // ---------------------------------------------------------------------------
  // The session and flash()
  // ---------------------------------------------------------------------------

  /** The part of $_SESSION the application uses: the flash slots and the
      logged-in user's id. */
  class Session {
    var flash: map<string, string>
    var userId: Option<int>

    /** session_start(): the state stored for this browser is restored. */
    constructor Restore(flash: map<string, string>, userId: Option<int>)
      ensures this.flash == flash && this.userId == userId
    {
      this.flash := flash;
      this.userId := userId;
    }

    /** flash($key, $message): a truthy message is stored under `key` and
        nothing is returned; otherwise the entry under `key`, if any, is
        removed and returned. */
    method Flash(key: string, message: Option<string>) returns (r: Option<string>)
      modifies this
      ensures userId == old(userId)
      ensures TruthyOption(message) ==> r == None && flash == old(flash)[key := message.value]
      ensures !TruthyOption(message) ==> r == Lookup(old(flash), key) && flash == old(flash) - {key}
    {
      if TruthyOption(message) {
        flash := flash[key := message.value];
        r := None;
      } else if key in flash {
        r := Some(flash[key]);
        flash := flash - {key};
      } else {
        r := None;
      }
    }

    /** `unset($_SESSION); session_destroy();`: nothing is left. */
    method Destroy()
      modifies this
      ensures flash == map[] && userId == None
    {
      flash := map[];
      userId := None;
    }
  }

  // --- the flash store's laws, each on a session restored from any state -----

  /** Write then read twice: the first read returns the message and removes
      it, the second finds nothing; other slots and the user id are untouched. */
  method FlashReadOnce(stored: map<string, string>, uid: Option<int>, key: string, m: string)
    returns (written: Option<string>, first: Option<string>, second: Option<string>,
             after: map<string, string>, afterUid: Option<int>)
    requires Truthy(m)
    ensures written == None && first == Some(m) && second == None
    ensures after == stored - {key} && afterUid == uid
  {
    var s := new Session.Restore(stored, uid);
    written := s.Flash(key, Some(m));
    first := s.Flash(key, None);
    second := s.Flash(key, None);
    after, afterUid := s.flash, s.userId;
  }

  /** A write sets exactly one slot and changes nothing else. */
  method FlashWriteOnly(stored: map<string, string>, uid: Option<int>, key: string, m: string)
    returns (written: Option<string>, after: map<string, string>, afterUid: Option<int>)
    requires Truthy(m)
    ensures written == None && key in after && after[key] == m
    ensures forall k :: k != key ==> (k in after <==> k in stored)
    ensures forall k :: k != key && k in stored ==> after[k] == stored[k]
    ensures afterUid == uid
  {
    var s := new Session.Restore(stored, uid);
    written := s.Flash(key, Some(m));
    after, afterUid := s.flash, s.userId;
  }

  /** Reading an absent slot returns null and leaves the session as it was. */
  method FlashReadAbsent(stored: map<string, string>, uid: Option<int>, key: string)
    returns (r: Option<string>, after: map<string, string>, afterUid: Option<int>)
    requires key !in stored
    ensures r == None && after == stored && afterUid == uid
  {
    var s := new Session.Restore(stored, uid);
    r := s.Flash(key, None);
    after, afterUid := s.flash, s.userId;
  }

  /** A second write overwrites the first. */
  method FlashOverwrite(stored: map<string, string>, key: string, m1: string, m2: string)
    returns (r: Option<string>)
    requires Truthy(m1) && Truthy(m2)
    ensures r == Some(m2)
  {
    var s := new Session.Restore(stored, None);
    var _ := s.Flash(key, Some(m1));
    var _ := s.Flash(key, Some(m2));
    r := s.Flash(key, None);
  }

  /** A falsy message ("" or "0") takes the read branch: instead of storing
      anything it consumes and returns the entry already there. */
  method FlashFalsyReads(stored: map<string, string>, key: string, m: string)
    returns (r: Option<string>, after: map<string, string>)
    requires !Truthy(m)
    ensures r == Lookup(stored, key) && key !in after
  {
    var s := new Session.Restore(stored, None);
    r := s.Flash(key, Some(m));
    after := s.flash;
  }
}
