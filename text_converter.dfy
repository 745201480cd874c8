/// TextConverter: conversions between the tracker's wiki markup, HTML and plain text.
/// The markup libraries themselves (the Confluence wiki parser, the HTML renderer and the
/// HTML escaping utilities) are not modelled: they are the function fields of Markup.
module TextConverter {
  import opened Base
  import opened Strings

  /** The third-party calls. None stands for a call that throws. */
  datatype Markup = Markup(
    renderWiki: string -> Option<string>,   // wiki text to a whole HTML document
    unescapeHtml: string -> string,         // HTML entities to characters
    renderText: string -> Option<string>,   // HTML to the text a browser would show
    escapeHtml: string -> Option<string>)   // characters to HTML entities

  const BodyOpen: string := "<body>"
  const BodyClose: string := "</body>"

  /** The part of a rendered document convertWikiToHtml keeps: the text between the first
      <body> and the first </body> when both occur, the whole document when one is missing,
      and None (the substring call throws) when the first </body> starts before the first
      <body> ends. */
  function BodyOf(html: string): Option<string>
  {
    var start := IndexOf(html, BodyOpen);
    var end := IndexOf(html, BodyClose);
    if start >= 0 && end >= 0 then
      if start + |BodyOpen| <= end then Some(html[start + |BodyOpen|..end]) else None
    else Some(html)
  }

  /** convertWikiToHtml: null stays null; any failure gives back the wiki text. */
  function ConvertWikiToHtml(lib: Markup, wiki: Option<string>): Option<string>
  {
    match wiki
    case None => None
    case Some(w) =>
      match lib.renderWiki(w)
      case None => Some(w)
      case Some(html) => Some(BodyOf(html).GetOr(w))
  }

  /** convertHtmlToText: null stays null; the entities are unescaped and the result rendered
      as text; a failing renderer gives back the HTML as it came, entities included. */
  function ConvertHtmlToText(lib: Markup, html: Option<string>): (r: Option<string>)
    ensures r.None? <==> html.None?
    ensures html.Some? && lib.renderText(lib.unescapeHtml(html.value)).None? ==> r == html
    ensures html.Some? && lib.renderText(lib.unescapeHtml(html.value)).Some? ==>
      r == lib.renderText(lib.unescapeHtml(html.value))
  {
    match html
    case None => None
    case Some(h) => Some(lib.renderText(lib.unescapeHtml(h)).GetOr(h))
  }

  /** convertWikiToText: the wiki text rendered to HTML, then to text, then trimmed. */
  function ConvertWikiToText(lib: Markup, wiki: Option<string>): (r: Option<string>)
    ensures r.None? <==> wiki.None?
    ensures r.Some? ==> r.value == [] || (!Trimmable(r.value[0]) && !Trimmable(r.value[|r.value| - 1]))
  {
    match ConvertHtmlToText(lib, ConvertWikiToHtml(lib, wiki))
    case None => None
    case Some(t) =>
      TrimIsSlice(t);
      Some(Trim(t))
  }

  /** convertTextToWiki: plain text is sent as wiki text unchanged. */
  function ConvertTextToWiki(text: Option<string>): (r: Option<string>)
    ensures r == text
  {
    text
  }

  /** convertHtmlToWiki: the HTML's plain-text rendering stands in for wiki markup. */
  function ConvertHtmlToWiki(lib: Markup, html: Option<string>): (r: Option<string>)
    ensures r == ConvertHtmlToText(lib, html)
  {
    ConvertHtmlToText(lib, html)
  }

  /** escapedText.replaceAll("\\n", "<br>"). */
  function ReplaceNewlines(s: string): (r: string)
    ensures '\n' !in r
    ensures '<' !in s ==> forall i :: 0 <= i < |r| && r[i] == '<' ==> OccursAt(r, "<br>", i)
  {
    if s == [] then []
    else (if s[0] == '\n' then "<br>" else [s[0]]) + ReplaceNewlines(s[1..])
  }

  /** convertTextToHtml: null stays null; a failing escape gives back the text. */
  function ConvertTextToHtml(lib: Markup, text: Option<string>): (r: Option<string>)
    ensures r.None? <==> text.None?
    ensures r.Some? ==> '\n' !in r.value || r == text
  {
    match text
    case None => None
    case Some(t) =>
      match lib.escapeHtml(t)
      case None => Some(t)
      case Some(e) => Some(ReplaceNewlines(e))
  }

  /** Reading each <br> back as a newline. */
  function ReplaceBreaks(s: string): string
  {
    if s == [] then []
    else if OccursAt(s, "<br>", 0) then ['\n'] + ReplaceBreaks(s[4..])
    else [s[0]] + ReplaceBreaks(s[1..])
  }

  /** On escaped text (which holds no '<'), the newline replacement loses nothing. */
  lemma {:induction false} ReplaceNewlinesInverse(s: string)
    requires '<' !in s
    ensures ReplaceBreaks(ReplaceNewlines(s)) == s
  {
    if s != [] {
      var rest := ReplaceNewlines(s[1..]);
      ReplaceNewlinesInverse(s[1..]);
      if s[0] == '\n' {
        assert ReplaceNewlines(s) == "<br>" + rest;
        assert ("<br>" + rest)[4..] == rest;
      } else {
        assert ReplaceNewlines(s) == [s[0]] + rest;
        assert !OccursAt([s[0]] + rest, "<br>", 0) by {
          assert s[0] != '<';
          if |[s[0]] + rest| >= 4 {
            assert ([s[0]] + rest)[0..4][0] == s[0];
          }
        }
        assert ([s[0]] + rest)[1..] == rest;
      }
    }
  }

  /** The kept body never holds the closing tag. */
  lemma BodyHasNoClosingTag(html: string)
    requires BodyOf(html).Some? && IndexOf(html, BodyOpen) >= 0 && IndexOf(html, BodyClose) >= 0
    ensures forall i :: 0 <= i <= |BodyOf(html).value| ==> !OccursAt(BodyOf(html).value, BodyClose, i)
  {
    var start := IndexOf(html, BodyOpen) + |BodyOpen|;
    var end := IndexOf(html, BodyClose);
    var b := html[start..end];
    forall i | 0 <= i <= |b| ensures !OccursAt(b, BodyClose, i) {
      if OccursAt(b, BodyClose, i) {
        assert i + |BodyClose| <= |b|;
        forall j | 0 <= j < |BodyClose| ensures html[start + i + j] == BodyClose[j] {
          assert b[i..i + |BodyClose|][j] == b[i + j];
        }
        assert html[start + i..start + i + |BodyClose|] == BodyClose;
        assert OccursAt(html, BodyClose, start + i);
        assert false;
      }
    }
  }

  /** When both tags occur in order, the kept text is exactly what the first <body> and the
      first </body> enclose in the rendered document. */
  lemma BodyFramed(html: string)
    requires IndexOf(html, BodyOpen) >= 0 && IndexOf(html, BodyClose) >= 0
    requires IndexOf(html, BodyOpen) + |BodyOpen| <= IndexOf(html, BodyClose)
    ensures BodyOf(html).Some?
    ensures OccursAt(html, BodyOpen + BodyOf(html).value + BodyClose, IndexOf(html, BodyOpen))
  {
    var start := IndexOf(html, BodyOpen);
    var end := IndexOf(html, BodyClose);
    var framed := html[start..end + |BodyClose|];
    assert framed == html[start..start + |BodyOpen|] + html[start + |BodyOpen|..end] + html[end..end + |BodyClose|];
  }

  /** Every failure inside convertWikiToHtml gives back the input: a failing parser, and a
      </body> that starts before the first <body> ends. */
  lemma WikiToHtmlFallback(lib: Markup, w: string)
    requires lib.renderWiki(w).None? || BodyOf(lib.renderWiki(w).value).None?
    ensures ConvertWikiToHtml(lib, Some(w)) == Some(w)
  {
  }

  /** Whenever the first </body> starts before the first <body> ends, the substring call
      throws, so there is no slice. */
  lemma MisorderedBody(html: string)
    requires IndexOf(html, BodyOpen) >= 0 && IndexOf(html, BodyClose) >= 0
    requires IndexOf(html, BodyClose) < IndexOf(html, BodyOpen) + |BodyOpen|
    ensures BodyOf(html) == None
  {
  }

  /** A rendered document with misordered tags makes convertWikiToHtml give back the wiki
      text. */
  lemma MisorderedFallsBack(lib: Markup, w: string, html: string)
    requires lib.renderWiki(w) == Some(html)
    requires IndexOf(html, BodyOpen) >= 0 && IndexOf(html, BodyClose) >= 0
    requires IndexOf(html, BodyClose) < IndexOf(html, BodyOpen) + |BodyOpen|
    ensures ConvertWikiToHtml(lib, Some(w)) == Some(w)
  {
    MisorderedBody(html);
  }

  /** The tags can be misordered: for one document the slice fails. */
  lemma MisorderedExample()
    ensures BodyOf("</body><body>") == None
  {
    assert OccursAt("</body><body>", BodyOpen, 7);
    assert OccursAt("</body><body>", BodyClose, 0);
  }
}
