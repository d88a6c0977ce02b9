/**
 * The URL validation ladder that both the create form and the edit card run before any request.
 * The URL parser (the WHATWG URL Standard's basic URL parser, behind `new URL`) is a parameter:
 * `parse(s)` is `Some(protocol)` when the parser accepts `s`, and `None` when it throws.
 */
module Validation {
  import opened Wrappers

  /**
   * The ECMAScript WhiteSpace and LineTerminator code points: the characters that
   * `String.prototype.trim` strips and that the regular-expression class `\s` matches
   * (tab, line feed, vertical tab, form feed, carriage return, the Unicode space separators,
   * the line and paragraph separators, and the byte order mark).
   */
  predicate IsWhitespace(c: char): (b: bool)
    ensures c == ' ' || c == '\t' || c == '\n' || c == '\r' ==> b
    ensures '0' <= c <= '9' || 'a' <= c <= 'z' || 'A' <= c <= 'Z' || c == ':' || c == '/' || c == '.' ==> !b
    ensures b ==> c as int <= 0xFEFF
  {
    var n := c as int;
    (0x09 <= n <= 0x0D) || n == 0x20 || n == 0xA0 || n == 0x1680 || (0x2000 <= n <= 0x200A)
    || n == 0x2028 || n == 0x2029 || n == 0x202F || n == 0x205F || n == 0x3000 || n == 0xFEFF
  }

  predicate AllWhitespace(s: string)
  {
    forall i | 0 <= i < |s| :: IsWhitespace(s[i])
  }

  /** The regular-expression test for `\s` anywhere in `s`. */
  predicate HasWhitespace(s: string): (b: bool)
    ensures b ==> s != []
    ensures AllWhitespace(s) && s != [] ==> b
  {
    assert AllWhitespace(s) && s != [] ==> IsWhitespace(s[0]);
    exists i | 0 <= i < |s| :: IsWhitespace(s[i])
  }

  /** The length of the whitespace run at the start of `s`. */
  function LeadingWhitespace(s: string): (n: nat)
    ensures n <= |s|
    ensures forall i | 0 <= i < n :: IsWhitespace(s[i])
    ensures n < |s| ==> !IsWhitespace(s[n])
  {
    if s != [] && IsWhitespace(s[0]) then 1 + LeadingWhitespace(s[1..]) else 0
  }

  /** The length of the whitespace run at the end of `s`. */
  function TrailingWhitespace(s: string): (n: nat)
    ensures n <= |s|
    ensures forall i | |s| - n <= i < |s| :: IsWhitespace(s[i])
    ensures n < |s| ==> !IsWhitespace(s[|s| - 1 - n])
  {
    if s != [] && IsWhitespace(s[|s| - 1]) then 1 + TrailingWhitespace(s[..|s| - 1]) else 0
  }

  /**
   * `String.prototype.trim`: the block `s[k..e]` left after stripping whitespace from both ends,
   * where `k` is the length of the leading whitespace.
   */
  function Trim(s: string): (r: string)
    ensures var k := LeadingWhitespace(s);
      && k + |r| <= |s| && r == s[k..k + |r|]
      && (forall i | 0 <= i < k :: IsWhitespace(s[i]))
      && (forall i | k + |r| <= i < |s| :: IsWhitespace(s[i]))
    ensures r == [] || (!IsWhitespace(r[0]) && !IsWhitespace(r[|r| - 1]))
  {
    var k := LeadingWhitespace(s);
    var rest := s[k..];
    var e := |s| - TrailingWhitespace(rest);
    assert forall i | e <= i < |s| :: s[i] == rest[i - k];
    s[k..e]
  }

  /** The trim is empty exactly when the input is all whitespace. */
  lemma TrimEmpty(s: string)
    ensures Trim(s) == [] <==> AllWhitespace(s)
  {
  }

  /** Why the ladder rejected an input; each call site shows its own message for each. */
  datatype Rejection = Empty | Malformed | UnsupportedScheme

  /** The two accepted protocols, as the URL parser reports them (with the colon). */
  predicate IsWebProtocol(protocol: string): (b: bool)
    ensures b ==> |protocol| >= 5 && protocol[..4] == "http" && protocol[|protocol| - 1] == ':'
    ensures protocol == "ftp:" || protocol == "file:" || protocol == "javascript:" ==> !b
  {
    protocol == "http:" || protocol == "https:"
  }

  /**
   * The ladder: trim, then reject an empty value, then a value containing whitespace,
   * then one the parser refuses, then one whose protocol is not http or https.
   * The first failing rule alone decides the outcome; an accepted value is the trimmed input,
   * not the parser's normalised form.
   */
  function CheckUrl(raw: string, parse: string -> Option<string>): (r: Result<string, Rejection>)
    ensures r.Success? <==>
      var v := Trim(raw); v != [] && !HasWhitespace(v) && parse(v).Some? && IsWebProtocol(parse(v).value)
    ensures r.Success? ==> r.value == Trim(raw) && r.value != [] && !HasWhitespace(r.value)
    ensures r == Failure(Empty) <==> AllWhitespace(raw)
    ensures r == Failure(Malformed) <==>
      !AllWhitespace(raw) && (HasWhitespace(Trim(raw)) || parse(Trim(raw)).None?)
    ensures r == Failure(UnsupportedScheme) <==>
      var v := Trim(raw);
      !AllWhitespace(raw) && !HasWhitespace(v) && parse(v).Some? && !IsWebProtocol(parse(v).value)
  {
    var value := Trim(raw);
    TrimEmpty(raw);
    if value == [] then Failure(Empty)
    else if HasWhitespace(value) then Failure(Malformed)
    else match parse(value)
      case None => Failure(Malformed)
      case Some(protocol) => if IsWebProtocol(protocol) then Success(value) else Failure(UnsupportedScheme)
  }

  /** A call site's view of the ladder: the accepted value, or the message it shows for the rejection. */
  function Explain(r: Result<string, Rejection>, message: Rejection -> string): Result<string, string>
  {
    match r
    case Success(value) => Success(value)
    case Failure(why) => Failure(message(why))
  }

  /** Trimming a trimmed string changes nothing. */
  lemma TrimIdempotent(s: string)
    ensures Trim(Trim(s)) == Trim(s)
  {
    var r := Trim(s);
    assert LeadingWhitespace(r) == 0;
    assert r[0..] == r;
    assert TrailingWhitespace(r) == 0;
  }

  /** A string without any whitespace is its own trim. */
  lemma TrimWithoutWhitespace(s: string)
    requires !HasWhitespace(s)
    ensures Trim(s) == s
  {
    assert s == [] || !IsWhitespace(s[0]);
    assert LeadingWhitespace(s) == 0;
    assert s[0..] == s;
    assert s == [] || !IsWhitespace(s[|s| - 1]);
    assert TrailingWhitespace(s) == 0;
  }

  /**
   * Whitespace with a non-whitespace character somewhere on each side survives trimming,
   * so the ladder rejects it as malformed, whatever the parser would say.
   */
  lemma InteriorWhitespaceIsMalformed(a: string, w: char, b: string, parse: string -> Option<string>)
    requires IsWhitespace(w) && !AllWhitespace(a) && !AllWhitespace(b)
    ensures CheckUrl(a + [w] + b, parse) == Failure(Malformed)
  {
    var s := a + [w] + b;
    var p :| 0 <= p < |a| && !IsWhitespace(a[p]);
    var q :| 0 <= q < |b| && !IsWhitespace(b[q]);
    assert s[p] == a[p] && s[|a| + 1 + q] == b[q] && s[|a|] == w;
    TrimSpans(s, p, |a| + 1 + q);
    var k := LeadingWhitespace(s);
    assert Trim(s)[|a| - k] == w;
    assert HasWhitespace(Trim(s));
  }

  /** Trimming keeps everything between two non-whitespace characters. */
  lemma TrimSpans(s: string, p: nat, q: nat)
    requires p <= q < |s| && !IsWhitespace(s[p]) && !IsWhitespace(s[q])
    ensures var k := LeadingWhitespace(s); k <= p && q < k + |Trim(s)|
  {
  }

  /** Checking an accepted value again accepts it unchanged. */
  lemma AcceptedIsStable(raw: string, parse: string -> Option<string>)
    requires CheckUrl(raw, parse).Success?
    ensures CheckUrl(CheckUrl(raw, parse).value, parse) == CheckUrl(raw, parse)
  {
    TrimIdempotent(raw);
  }

  /** The scenario of an ftp address: the parser reads it, but its protocol is refused. */
  lemma FtpIsUnsupportedScheme(parse: string -> Option<string>)
    requires parse("ftp://x.com") == Some("ftp:")
    ensures CheckUrl("ftp://x.com", parse) == Failure(UnsupportedScheme)
  {
    var s := "ftp://x.com";
    assert !HasWhitespace(s);
    TrimWithoutWhitespace(s);
  }

  /** The scenario "not a url": rejected as malformed before any request, whatever the parser says. */
  lemma NotAUrlIsMalformed(parse: string -> Option<string>)
    ensures CheckUrl("not a url", parse) == Failure(Malformed)
  {
    assert "not a url" == "not" + [' '] + "a url";
    assert !IsWhitespace("not"[0]) && !IsWhitespace("a url"[0]);
    InteriorWhitespaceIsMalformed("not", ' ', "a url", parse);
  }
}
