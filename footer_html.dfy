/** The footer block that the page publisher splices into pages: `FOOTER_HTML` of
    lambdas/s3_upload.py, character for character (an arrow character, the
    copyright line, a style sheet and a small script).

    The block is assembled from short pieces: one per run of markup that starts at a
    `<`, and one per line of the style sheet and the script, long lines in two or three
    parts. Each piece is short enough for the verifier to inspect character by
    character; ElementShape and FooterGuards collect what the rest of the model needs
    to know about the whole block. */
module FooterHtml {
  import opened Text
  import opened FooterScan

  /** The brand text that marks a footer as already present, in lower case. */
  const Marker := "boxshop"

  const FOOTER_HTML: string := FooterElement + FooterAssets

  /** Where, in FOOTER_HTML, the footer element's `</footer>` and its "BoxShop" start. */
  const CloseAt: nat := 176
  const MarkerAt: nat := 102

  /** Lines 9-15: a line break, then the footer element. */
  const FooterElement := FooterHead + FooterInner + FooterClose
  const FooterHead := "\n<footer>"
  const FooterClose := "</footer>"

  /** Lines 11-14: the "move to top" link and the copyright line. */
  const FooterInner := ToTopRow + CopyrightRow
  const ToTopRow :=
    InnerIndent + ToTopPara + ToTopLink + ToTopLabel + ToTopLinkEnd + ToTopParaEnd
  const CopyrightRow :=
    CopyrightPara + CopyrightRights + CopyrightContact + CopyrightParaEnd
  const InnerIndent := "\n  "
  const ToTopPara := "<p class=\"to-top\">\n    "
  const ToTopLink := "<a href=\"#\" id=\"moveTop\">"
  const ToTopLabel := "\U{2191} Move to Top"
  const ToTopLinkEnd := "</a>\n  "
  const ToTopParaEnd := "</p>\n  "
  const CopyrightPara := "<p>&copy; 2025 BoxShop, Inc. "
  const CopyrightRights := "&middot; All rights reserved. "
  const CopyrightContact := "Contact: hello@boxshop.io"
  const CopyrightParaEnd := "</p>\n"

  /** Lines 16-62: the style sheet and the script that follow the footer element. */
  const FooterAssets := AssetsGap + StyleOpen + Css + StyleClose + ScriptOpen + Js + ScriptClose
  const AssetsGap := "\n\n"
  const StyleOpen := "<style>\n"
  const StyleClose := "</style>\n\n"
  const ScriptOpen := "<script>\n"
  const ScriptClose := "</script>\n"

  const Css :=
    Css18 + Css19 + Css20 + Css21 + Css22 + Css23 + Css24 + Css25 + Css26 + Css27 +
    Css28 + Css29 + Css30 + Css31 + Css32 + Css33a + Css33b + Css34 + Css35 + Css36 +
    Css37 + Css38 + Css39 + Css40 + Css41 + Css42 + Css43 + Css44 + Css45 + Css46 +
    Css47 + Css48 + Css49
  const Css18 := "  body {\n"
  const Css19 := "    margin: 0;\n"
  const Css20 := "    padding-bottom: 100px;\n"
  const Css21 := "    font-family: Arial, sans-serif;\n"
  const Css22 := "  }\n"
  const Css23 := "  footer {\n"
  const Css24 := "    position: fixed;\n"
  const Css25 := "    bottom: 0;\n"
  const Css26 := "    left: 0;\n"
  const Css27 := "    width: 100%;\n"
  const Css28 := "    background-color: #222;\n"
  const Css29 := "    color: #ccc;\n"
  const Css30 := "    text-align: center;\n"
  const Css31 := "    padding: 1em 1em;\n"
  const Css32 := "    font-size: 0.9rem;\n"
  const Css33a := "    box-shadow: 0 -2px 8px"
  const Css33b := " rgba(0, 0, 0, 0.3);\n"
  const Css34 := "  }\n"
  const Css35 := "  footer a {\n"
  const Css36 := "    color: #4da3ff;\n"
  const Css37 := "    text-decoration: none;\n"
  const Css38 := "    transition: color 0.2s ease;\n"
  const Css39 := "  }\n"
  const Css40 := "  footer a:hover {\n"
  const Css41 := "    color: #fff;\n"
  const Css42 := "    text-decoration: underline;\n"
  const Css43 := "  }\n"
  const Css44 := "  .to-top {\n"
  const Css45 := "    margin: 0 0 0.3em 0;\n"
  const Css46 := "  }\n"
  const Css47 := "  #moveTop {\n"
  const Css48 := "    font-weight: bold;\n"
  const Css49 := "  }\n"

  const Js :=
    Js53a + Js53b + Js54a + Js54b + Js54c + Js55 + Js56a + Js56b + Js57 + Js58a +
    Js58b + Js59 + Js60 + Js61
  const Js53a := "  document.addEventListener("
  const Js53b := "\"DOMContentLoaded\", function() {\n"
  const Js54a := "    var topLink ="
  const Js54b := " document.getElementById("
  const Js54c := "\"moveTop\");\n"
  const Js55 := "    if (topLink) {\n"
  const Js56a := "      topLink.addEventListener("
  const Js56b := "\"click\", function(e) {\n"
  const Js57 := "        e.preventDefault();\n"
  const Js58a := "        window.scrollTo({ top: 0,"
  const Js58b := " behavior: \"smooth\" });\n"
  const Js59 := "      });\n"
  const Js60 := "    }\n"
  const Js61 := "  });\n"

  /** Text without any `<`. */
  predicate PlainText(s: string) {
    forall k :: 0 <= k < |s| ==> s[k] != '<'
  }

  /** A `<` that opens neither `<footer` nor `</footer>`, followed by text without `<`. */
  predicate TagText(s: string) {
    && |s| >= 3 && s[0] == '<'
    && Lower(s[1]) != 'f' && (s[1] == '/' ==> Lower(s[2]) != 'f')
    && forall k :: 1 <= k < |s| ==> s[k] != '<'
  }

  /** No `<` of `s` begins `<footer` or `</footer>`, in any case, and each `<` is followed
      by at least two more characters of `s`, so that this stays true wherever `s` is
      placed. */
  predicate Guarded(s: string) {
    forall k :: 0 <= k < |s| && s[k] == '<' ==>
      k + 2 < |s| && Lower(s[k + 1]) != 'f' && (s[k + 1] == '/' ==> Lower(s[k + 2]) != 'f')
  }

  lemma PlainConcat(a: string, b: string)
    requires PlainText(a) && PlainText(b)
    ensures PlainText(a + b)
  {
  }

  lemma GuardedConcat(a: string, b: string)
    requires Guarded(a) && Guarded(b)
    ensures Guarded(a + b)
  {
    forall k | 0 <= k < |a + b| && (a + b)[k] == '<'
      ensures k + 2 < |a + b| && Lower((a + b)[k + 1]) != 'f'
      ensures (a + b)[k + 1] == '/' ==> Lower((a + b)[k + 2]) != 'f'
    {
      if k < |a| {
        assert a[k] == '<';
      } else {
        assert b[k - |a|] == '<';
      }
    }
  }

  lemma PlainIsGuarded(s: string)
    requires PlainText(s)
    ensures Guarded(s)
  {
  }

  lemma TagIsGuarded(s: string)
    requires TagText(s)
    ensures Guarded(s)
  {
  }

  lemma InnerPlainPieces()
    ensures PlainText(InnerIndent)
    ensures PlainText(ToTopLabel)
    ensures PlainText(CopyrightRights)
    ensures PlainText(CopyrightContact)
    ensures PlainText(AssetsGap)
  {
  }

  lemma CssPlainPieces()
    ensures PlainText(Css18)
    ensures PlainText(Css19)
    ensures PlainText(Css20)
    ensures PlainText(Css21)
    ensures PlainText(Css22)
    ensures PlainText(Css23)
    ensures PlainText(Css24)
    ensures PlainText(Css25)
    ensures PlainText(Css26)
    ensures PlainText(Css27)
    ensures PlainText(Css28)
    ensures PlainText(Css29)
    ensures PlainText(Css30)
    ensures PlainText(Css31)
    ensures PlainText(Css32)
    ensures PlainText(Css33a)
    ensures PlainText(Css33b)
    ensures PlainText(Css34)
    ensures PlainText(Css35)
    ensures PlainText(Css36)
    ensures PlainText(Css37)
    ensures PlainText(Css38)
    ensures PlainText(Css39)
    ensures PlainText(Css40)
    ensures PlainText(Css41)
    ensures PlainText(Css42)
    ensures PlainText(Css43)
    ensures PlainText(Css44)
    ensures PlainText(Css45)
    ensures PlainText(Css46)
    ensures PlainText(Css47)
    ensures PlainText(Css48)
    ensures PlainText(Css49)
  {
  }

  lemma JsPlainPieces()
    ensures PlainText(Js53a)
    ensures PlainText(Js53b)
    ensures PlainText(Js54a)
    ensures PlainText(Js54b)
    ensures PlainText(Js54c)
    ensures PlainText(Js55)
    ensures PlainText(Js56a)
    ensures PlainText(Js56b)
    ensures PlainText(Js57)
    ensures PlainText(Js58a)
    ensures PlainText(Js58b)
    ensures PlainText(Js59)
    ensures PlainText(Js60)
    ensures PlainText(Js61)
  {
  }

  lemma TagPieces()
    ensures TagText(ToTopPara)
    ensures TagText(ToTopLink)
    ensures TagText(ToTopLinkEnd)
    ensures TagText(ToTopParaEnd)
    ensures TagText(CopyrightPara)
    ensures TagText(CopyrightParaEnd)
    ensures TagText(StyleOpen)
    ensures TagText(StyleClose)
    ensures TagText(ScriptOpen)
    ensures TagText(ScriptClose)
  {
  }

  lemma CssPlain()
    ensures PlainText(Css)
  {
    CssPlainPieces();
    PlainConcat(Css18, Css19);
    PlainConcat(Css18 + Css19, Css20);
    PlainConcat(Css18 + Css19 + Css20, Css21);
    PlainConcat(Css18 + Css19 + Css20 + Css21, Css22);
    PlainConcat(Css18 + Css19 + Css20 + Css21 + Css22, Css23);
    PlainConcat(Css18 + Css19 + Css20 + Css21 + Css22 + Css23, Css24);
    PlainConcat(Css18 + Css19 + Css20 + Css21 + Css22 + Css23 + Css24, Css25);
    PlainConcat(Css18 + Css19 + Css20 + Css21 + Css22 + Css23 + Css24 + Css25, Css26);
    PlainConcat(Css18 + Css19 + Css20 + Css21 + Css22 + Css23 + Css24 + Css25 + Css26, Css27);
    PlainConcat(Css18 + Css19 + Css20 + Css21 + Css22 + Css23 + Css24 + Css25 + Css26 + Css27, Css28);
    PlainConcat(Css18 + Css19 + Css20 + Css21 + Css22 + Css23 + Css24 + Css25 + Css26 + Css27 + Css28, Css29);
    PlainConcat(Css18 + Css19 + Css20 + Css21 + Css22 + Css23 + Css24 + Css25 + Css26 + Css27 + Css28 + Css29, Css30);
    PlainConcat(Css18 + Css19 + Css20 + Css21 + Css22 + Css23 + Css24 + Css25 + Css26 + Css27 + Css28 + Css29 + Css30, Css31);
    PlainConcat(Css18 + Css19 + Css20 + Css21 + Css22 + Css23 + Css24 + Css25 + Css26 + Css27 + Css28 + Css29 + Css30 + Css31, Css32);
    PlainConcat(Css18 + Css19 + Css20 + Css21 + Css22 + Css23 + Css24 + Css25 + Css26 + Css27 + Css28 + Css29 + Css30 + Css31 + Css32, Css33a);
    PlainConcat(Css18 + Css19 + Css20 + Css21 + Css22 + Css23 + Css24 + Css25 + Css26 + Css27 + Css28 + Css29 + Css30 + Css31 + Css32 + Css33a, Css33b);
    PlainConcat(Css18 + Css19 + Css20 + Css21 + Css22 + Css23 + Css24 + Css25 + Css26 + Css27 + Css28 + Css29 + Css30 + Css31 + Css32 + Css33a + Css33b, Css34);
    PlainConcat(Css18 + Css19 + Css20 + Css21 + Css22 + Css23 + Css24 + Css25 + Css26 + Css27 + Css28 + Css29 + Css30 + Css31 + Css32 + Css33a + Css33b + Css34, Css35);
    PlainConcat(Css18 + Css19 + Css20 + Css21 + Css22 + Css23 + Css24 + Css25 + Css26 + Css27 + Css28 + Css29 + Css30 + Css31 + Css32 + Css33a + Css33b + Css34 + Css35, Css36);
    PlainConcat(Css18 + Css19 + Css20 + Css21 + Css22 + Css23 + Css24 + Css25 + Css26 + Css27 + Css28 + Css29 + Css30 + Css31 + Css32 + Css33a + Css33b + Css34 + Css35 + Css36, Css37);
    PlainConcat(Css18 + Css19 + Css20 + Css21 + Css22 + Css23 + Css24 + Css25 + Css26 + Css27 + Css28 + Css29 + Css30 + Css31 + Css32 + Css33a + Css33b + Css34 + Css35 + Css36 + Css37, Css38);
    PlainConcat(Css18 + Css19 + Css20 + Css21 + Css22 + Css23 + Css24 + Css25 + Css26 + Css27 + Css28 + Css29 + Css30 + Css31 + Css32 + Css33a + Css33b + Css34 + Css35 + Css36 + Css37 + Css38, Css39);
    PlainConcat(Css18 + Css19 + Css20 + Css21 + Css22 + Css23 + Css24 + Css25 + Css26 + Css27 + Css28 + Css29 + Css30 + Css31 + Css32 + Css33a + Css33b + Css34 + Css35 + Css36 + Css37 + Css38 + Css39, Css40);
    PlainConcat(Css18 + Css19 + Css20 + Css21 + Css22 + Css23 + Css24 + Css25 + Css26 + Css27 + Css28 + Css29 + Css30 + Css31 + Css32 + Css33a + Css33b + Css34 + Css35 + Css36 + Css37 + Css38 + Css39 + Css40, Css41);
    PlainConcat(Css18 + Css19 + Css20 + Css21 + Css22 + Css23 + Css24 + Css25 + Css26 + Css27 + Css28 + Css29 + Css30 + Css31 + Css32 + Css33a + Css33b + Css34 + Css35 + Css36 + Css37 + Css38 + Css39 + Css40 + Css41, Css42);
    PlainConcat(Css18 + Css19 + Css20 + Css21 + Css22 + Css23 + Css24 + Css25 + Css26 + Css27 + Css28 + Css29 + Css30 + Css31 + Css32 + Css33a + Css33b + Css34 + Css35 + Css36 + Css37 + Css38 + Css39 + Css40 + Css41 + Css42, Css43);
    PlainConcat(Css18 + Css19 + Css20 + Css21 + Css22 + Css23 + Css24 + Css25 + Css26 + Css27 + Css28 + Css29 + Css30 + Css31 + Css32 + Css33a + Css33b + Css34 + Css35 + Css36 + Css37 + Css38 + Css39 + Css40 + Css41 + Css42 + Css43, Css44);
    PlainConcat(Css18 + Css19 + Css20 + Css21 + Css22 + Css23 + Css24 + Css25 + Css26 + Css27 + Css28 + Css29 + Css30 + Css31 + Css32 + Css33a + Css33b + Css34 + Css35 + Css36 + Css37 + Css38 + Css39 + Css40 + Css41 + Css42 + Css43 + Css44, Css45);
    PlainConcat(Css18 + Css19 + Css20 + Css21 + Css22 + Css23 + Css24 + Css25 + Css26 + Css27 + Css28 + Css29 + Css30 + Css31 + Css32 + Css33a + Css33b + Css34 + Css35 + Css36 + Css37 + Css38 + Css39 + Css40 + Css41 + Css42 + Css43 + Css44 + Css45, Css46);
    PlainConcat(Css18 + Css19 + Css20 + Css21 + Css22 + Css23 + Css24 + Css25 + Css26 + Css27 + Css28 + Css29 + Css30 + Css31 + Css32 + Css33a + Css33b + Css34 + Css35 + Css36 + Css37 + Css38 + Css39 + Css40 + Css41 + Css42 + Css43 + Css44 + Css45 + Css46, Css47);
    PlainConcat(Css18 + Css19 + Css20 + Css21 + Css22 + Css23 + Css24 + Css25 + Css26 + Css27 + Css28 + Css29 + Css30 + Css31 + Css32 + Css33a + Css33b + Css34 + Css35 + Css36 + Css37 + Css38 + Css39 + Css40 + Css41 + Css42 + Css43 + Css44 + Css45 + Css46 + Css47, Css48);
    PlainConcat(Css18 + Css19 + Css20 + Css21 + Css22 + Css23 + Css24 + Css25 + Css26 + Css27 + Css28 + Css29 + Css30 + Css31 + Css32 + Css33a + Css33b + Css34 + Css35 + Css36 + Css37 + Css38 + Css39 + Css40 + Css41 + Css42 + Css43 + Css44 + Css45 + Css46 + Css47 + Css48, Css49);
  }

  lemma JsPlain()
    ensures PlainText(Js)
  {
    JsPlainPieces();
    PlainConcat(Js53a, Js53b);
    PlainConcat(Js53a + Js53b, Js54a);
    PlainConcat(Js53a + Js53b + Js54a, Js54b);
    PlainConcat(Js53a + Js53b + Js54a + Js54b, Js54c);
    PlainConcat(Js53a + Js53b + Js54a + Js54b + Js54c, Js55);
    PlainConcat(Js53a + Js53b + Js54a + Js54b + Js54c + Js55, Js56a);
    PlainConcat(Js53a + Js53b + Js54a + Js54b + Js54c + Js55 + Js56a, Js56b);
    PlainConcat(Js53a + Js53b + Js54a + Js54b + Js54c + Js55 + Js56a + Js56b, Js57);
    PlainConcat(Js53a + Js53b + Js54a + Js54b + Js54c + Js55 + Js56a + Js56b + Js57, Js58a);
    PlainConcat(Js53a + Js53b + Js54a + Js54b + Js54c + Js55 + Js56a + Js56b + Js57 + Js58a, Js58b);
    PlainConcat(Js53a + Js53b + Js54a + Js54b + Js54c + Js55 + Js56a + Js56b + Js57 + Js58a + Js58b, Js59);
    PlainConcat(Js53a + Js53b + Js54a + Js54b + Js54c + Js55 + Js56a + Js56b + Js57 + Js58a + Js58b + Js59, Js60);
    PlainConcat(Js53a + Js53b + Js54a + Js54b + Js54c + Js55 + Js56a + Js56b + Js57 + Js58a + Js58b + Js59 + Js60, Js61);
  }

  lemma InnerGuarded()
    ensures Guarded(FooterInner)
  {
    InnerPlainPieces();
    TagPieces();
    PlainIsGuarded(InnerIndent);
    TagIsGuarded(ToTopPara);
    TagIsGuarded(ToTopLink);
    PlainIsGuarded(ToTopLabel);
    TagIsGuarded(ToTopLinkEnd);
    TagIsGuarded(ToTopParaEnd);
    GuardedConcat(InnerIndent, ToTopPara);
    GuardedConcat(InnerIndent + ToTopPara, ToTopLink);
    GuardedConcat(InnerIndent + ToTopPara + ToTopLink, ToTopLabel);
    GuardedConcat(InnerIndent + ToTopPara + ToTopLink + ToTopLabel, ToTopLinkEnd);
    GuardedConcat(InnerIndent + ToTopPara + ToTopLink + ToTopLabel + ToTopLinkEnd, ToTopParaEnd);
    TagIsGuarded(CopyrightPara);
    PlainIsGuarded(CopyrightRights);
    PlainIsGuarded(CopyrightContact);
    TagIsGuarded(CopyrightParaEnd);
    GuardedConcat(CopyrightPara, CopyrightRights);
    GuardedConcat(CopyrightPara + CopyrightRights, CopyrightContact);
    GuardedConcat(CopyrightPara + CopyrightRights + CopyrightContact, CopyrightParaEnd);
    GuardedConcat(ToTopRow, CopyrightRow);
  }

  lemma AssetsGuarded()
    ensures Guarded(FooterAssets)
  {
    InnerPlainPieces();
    TagPieces();
    CssPlain();
    JsPlain();
    PlainIsGuarded(AssetsGap);
    TagIsGuarded(StyleOpen);
    PlainIsGuarded(Css);
    TagIsGuarded(StyleClose);
    TagIsGuarded(ScriptOpen);
    PlainIsGuarded(Js);
    TagIsGuarded(ScriptClose);
    GuardedConcat(AssetsGap, StyleOpen);
    GuardedConcat(AssetsGap + StyleOpen, Css);
    GuardedConcat(AssetsGap + StyleOpen + Css, StyleClose);
    GuardedConcat(AssetsGap + StyleOpen + Css + StyleClose, ScriptOpen);
    GuardedConcat(AssetsGap + StyleOpen + Css + StyleClose + ScriptOpen, Js);
    GuardedConcat(AssetsGap + StyleOpen + Css + StyleClose + ScriptOpen + Js, ScriptClose);
  }

  lemma Lengths()
    ensures |FooterHead| == 9 && |ToTopRow| == MarkerAt - 24 && |CopyrightRow| == CloseAt - MarkerAt + 15
    ensures |FooterAssets| == 1102 - CloseAt - |CloseTag|
  {
  }

  lemma HeadLiterals()
    ensures FooterHead[0] == '\n' && MatchesAt(FooterHead, OpenTag, 1) && MatchesAt(FooterHead, ">", 8)
  {
  }

  lemma HeadLessThan()
    ensures FooterHead[2] == 'f' && forall k :: 0 <= k < |FooterHead| && FooterHead[k] == '<' ==> k == 1
  {
  }

  lemma CloseLiterals()
    ensures MatchesAt(FooterClose, CloseTag, 0)
  {
  }

  lemma CloseLessThan()
    ensures |FooterClose| == 9 && FooterClose[1] == '/' && forall k :: 0 <= k < |FooterClose| && FooterClose[k] == '<' ==> k == 0
  {
  }

  lemma CopyrightLiteral()
    ensures MatchesAt(CopyrightPara, Marker, 15)
  {
  }

  /** A match inside `p` is still a match once text follows `p`. */
  lemma MatchesBeforeRest(p: string, r: string, t: string, q: nat)
    requires MatchesAt(p, t, q)
    ensures MatchesAt(p + r, t, q)
  {
    MatchesInPrefix(p, r, t, q);
  }

  /** Where the tags and the marker of an element `h + (top + row) + cl`, followed by
      `assets`, lie, from the facts about its parts. */
  lemma ShapeOfParts(f: string, marker: nat, close: nat, h: string, top: string, row: string, cl: string, assets: string)
    requires f == h + (top + row) + cl + assets
    requires marker == 9 + |top| + 15 && close == 9 + |top| + |row|
    requires |h| == 9 && h[0] == '\n' && MatchesAt(h, OpenTag, 1) && MatchesAt(h, ">", 8)
    requires MatchesAt(row, Marker, 15) && MatchesAt(cl, CloseTag, 0)
    ensures f[0] == '\n' && MatchesAt(f, OpenTag, 1) && MatchesAt(f, ">", 8) &&
      MatchesAt(f, Marker, marker) && MatchesAt(f, CloseTag, close)
  {
    assert f[0] == h[0];
    MatchesInPrefix(h, (top + row) + cl + assets, OpenTag, 1);
    MatchesInPrefix(h, (top + row) + cl + assets, ">", 8);
    assert h + (top + row) + cl + assets == h + ((top + row) + cl + assets);
    MatchesInSuffix(top, row, Marker, 15);
    MatchesInSuffix(h, top + row, Marker, |top| + 15);
    MatchesInPrefix(h + (top + row), cl + assets, Marker, 9 + |top| + 15);
    assert h + (top + row) + cl + assets == (h + (top + row)) + (cl + assets);
    MatchesInSuffix(h + (top + row), cl + assets, CloseTag, 0);
    MatchesInPrefix(cl, assets, CloseTag, 0);
  }

  lemma RowMarker()
    ensures MatchesAt(CopyrightRow, Marker, 15)
  {
    CopyrightLiteral();
    MatchesBeforeRest(CopyrightPara, CopyrightRights, Marker, 15);
    MatchesBeforeRest(CopyrightPara + CopyrightRights, CopyrightContact, Marker, 15);
    MatchesBeforeRest(CopyrightPara + CopyrightRights + CopyrightContact, CopyrightParaEnd, Marker, 15);
  }

  /** The footer element: a line break, `<footer>`, the two rows and `</footer>`. */
  lemma ElementShape()
    ensures |FOOTER_HTML| == 1102 && CloseAt + |CloseTag| <= |FOOTER_HTML|
    ensures FOOTER_HTML[0] == '\n'
    ensures MatchesAt(FOOTER_HTML, OpenTag, 1) && MatchesAt(FOOTER_HTML, ">", 8)
    ensures MatchesAt(FOOTER_HTML, CloseTag, CloseAt)
    ensures 1 <= MarkerAt && MarkerAt + |Marker| <= CloseAt && MatchesAt(FOOTER_HTML, Marker, MarkerAt)
  {
    Lengths();
    HeadLiterals();
    CloseLiterals();
    RowMarker();
    ShapeOfParts(FOOTER_HTML, MarkerAt, CloseAt, FooterHead, ToTopRow, CopyrightRow, FooterClose, FooterAssets);
  }

  /** The `<` positions of `h + inner + c + assets` when `h` and `c` hold one tag each
      and `inner` and `assets` are guarded. */
  lemma GuardsOfParts(f: string, close: nat, h: string, inner: string, c: string, assets: string)
    requires f == h + inner + c + assets && close == |h| + |inner|
    requires |h| == 9 && h[2] == 'f' && forall k :: 0 <= k < |h| && h[k] == '<' ==> k == 1
    requires |c| == 9 && c[1] == '/' && forall k :: 0 <= k < |c| && c[k] == '<' ==> k == 0
    requires Guarded(inner) && Guarded(assets)
    ensures forall j :: 2 <= j < |f| && f[j] == '<' ==> j + 1 < |f| && Lower(f[j + 1]) != 'f'
    ensures forall j :: 0 <= j < close && f[j] == '<' ==>
              j + 2 < |f| && (f[j + 1] != '/' || Lower(f[j + 2]) != 'f')
  {
    forall j | 0 <= j < |f| && f[j] == '<'
      ensures j >= 2 ==> j + 1 < |f| && Lower(f[j + 1]) != 'f'
      ensures j < |h| + |inner| ==> j + 2 < |f| && (f[j + 1] != '/' || Lower(f[j + 2]) != 'f')
    {
      var e := |h| + |inner| + |c|;
      if j >= e {
        assert assets[j - e] == '<';
        assert f[j + 1] == assets[j + 1 - e];
        assert f[j + 2] == assets[j + 2 - e];
      } else if j >= |h| + |inner| {
        assert c[j - |h| - |inner|] == '<';
        assert f[j + 1] == c[1];
      } else if j >= |h| {
        assert inner[j - |h|] == '<';
        assert f[j + 1] == inner[j + 1 - |h|];
        assert f[j + 2] == inner[j + 2 - |h|];
      } else {
        assert h[j] == '<';
        assert f[2] == h[2];
      }
    }
  }

  /** Apart from the footer element's own tags, no `<` of FOOTER_HTML starts `<footer`
      or `</footer>`; within the element, none before CloseAt starts `</footer>`. */
  lemma FooterGuards()
    ensures forall j :: 2 <= j < |FOOTER_HTML| && FOOTER_HTML[j] == '<' ==>
              j + 1 < |FOOTER_HTML| && Lower(FOOTER_HTML[j + 1]) != 'f'
    ensures forall j :: 0 <= j < CloseAt && FOOTER_HTML[j] == '<' ==>
              j + 2 < |FOOTER_HTML| && (FOOTER_HTML[j + 1] != '/' || Lower(FOOTER_HTML[j + 2]) != 'f')
  {
    Lengths();
    HeadLessThan();
    CloseLessThan();
    InnerGuarded();
    AssetsGuarded();
    GuardsOfParts(FOOTER_HTML, CloseAt, FooterHead, FooterInner, FooterClose, FooterAssets);
  }
}
