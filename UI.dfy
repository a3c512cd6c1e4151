/** UI text with inline style markup, the glyph lookup of bitmap fonts and
    the draw-order attribute of UI objects.

    In a text, `^(` opens a style span that runs to the next `)` (or to the
    end of the text). The span's space-separated tokens style the text that
    follows: `*` bold, `/` italic, `_` underlined, `-` struck through, `<`
    starts a new line, and a token containing `clr` names a colour after
    its `=`. The text is kept as a list of styled parts. */
module UI {
  import opened Common

  datatype Color = Color(r: byte, g: byte, b: byte, a: byte)

  const White := Color(255, 255, 255, 255)

  datatype StyledText = StyledText(text: string, bold: bool, italic: bool, underlined: bool,
                                   strikethrough: bool, newline: bool, color: Color)

  /** A fresh part: no text, no style, white. */
  const Plain := StyledText("", false, false, false, false, false, White)

  // ---------------------------------------------------------------------------
  // Style tokens

  predicate ClrAt(t: string, i: nat)
  {
    i + 3 <= |t| && t[i..i + 3] == "clr"
  }

  /** The token mentions `clr` somewhere. */
  predicate HasClr(t: string)
  {
    exists i: nat | i < |t| :: ClrAt(t, i)
  }

  /** A colour token carries a value after `=`; one without is a panic. */
  predicate ClrNamed(t: string)
  {
    HasClr(t) ==> '=' in t
  }

  predicate TokensNamed(toks: seq<string>)
  {
    forall t :: t in toks ==> ClrNamed(t)
  }

  /** One token's effect on the part being styled; `color` looks a colour up
      by name. Unknown tokens change nothing. */
  function Apply(p: StyledText, tok: string, color: string -> Color): (r: StyledText)
    requires ClrNamed(tok)
    ensures r.text == p.text
    ensures r.bold <==> p.bold || tok == "*"
    ensures r.italic <==> p.italic || tok == "/"
    ensures r.underlined <==> p.underlined || tok == "_"
    ensures r.strikethrough <==> p.strikethrough || tok == "-"
    ensures r.newline <==> p.newline || tok == "<"
    ensures !HasClr(tok) ==> r.color == p.color
  {
    var p1 := if tok == "*" then p.(bold := true) else p;
    var p2 := if tok == "/" then p1.(italic := true) else p1;
    var p3 := if tok == "_" then p2.(underlined := true) else p2;
    var p4 := if tok == "-" then p3.(strikethrough := true) else p3;
    var p5 := if tok == "<" then p4.(newline := true) else p4;
    if HasClr(tok) then
      assert |SplitOn(tok, '=')| >= 2;
      p5.(color := color(SplitOn(tok, '=')[1]))
    else p5
  }

  /** The tokens applied in order; the text is kept. */
  function Styled(p: StyledText, toks: seq<string>, color: string -> Color): (r: StyledText)
    requires TokensNamed(toks)
    ensures r.text == p.text
    decreases |toks|
  {
    if toks == [] then p
    else
      assert toks[0] in toks;
      Styled(Apply(p, toks[0], color), toks[1..], color)
  }

  /** What a span's tokens do: each flag is set exactly when the part had it
      or a token asks for it, and without a `clr` token the colour stays. */
  lemma {:induction false} StyledFlags(p: StyledText, toks: seq<string>, color: string -> Color)
    requires TokensNamed(toks)
    ensures var r := Styled(p, toks, color);
      (r.bold <==> p.bold || "*" in toks) &&
      (r.italic <==> p.italic || "/" in toks) &&
      (r.underlined <==> p.underlined || "_" in toks) &&
      (r.strikethrough <==> p.strikethrough || "-" in toks) &&
      (r.newline <==> p.newline || "<" in toks) &&
      ((forall t :: t in toks ==> !HasClr(t)) ==> r.color == p.color)
    decreases |toks|
  {
    if toks != [] {
      assert toks[0] in toks;
      assert forall t :: t in toks[1..] ==> t in toks;
      assert forall t :: t in toks ==> t == toks[0] || t in toks[1..];
      StyledFlags(Apply(p, toks[0], color), toks[1..], color);
    }
  }

  // ---------------------------------------------------------------------------
  // Markup

  /** `t` starts a style span: `^` followed by `(`. */
  predicate Markup(t: string)
  {
    |t| >= 2 && t[0] == '^' && t[1] == '('
  }

  /** The inside of a span whose `^(` has been read: up to the first `)`, or
      everything when there is none. */
  function RawSpan(t: string): (r: string)
    ensures ')' !in r
  {
    if t == [] || t[0] == ')' then [] else [t[0]] + RawSpan(t[1..])
  }

  /** What follows the span: the text after its `)`, or nothing. */
  function AfterSpan(t: string): (r: string)
    ensures |r| <= |t|
  {
    if t == [] then [] else if t[0] == ')' then t[1..] else AfterSpan(t[1..])
  }

  /** Every colour token of every span in `s` names its colour. */
  predicate ColoursNamed(s: string)
    decreases |s|
  {
    if s == [] then true
    else if Markup(s) then TokensNamed(SplitOn(RawSpan(s[2..]), ' ')) && ColoursNamed(AfterSpan(s[2..]))
    else ColoursNamed(s[1..])
  }

  /** The parts `setString` makes from `rest`, with `part` the part being
      filled: markup pushes the part if it has text and styles the part that
      follows; any other character is text; the last part is pushed at the
      end. Only the last part can be without text. */
  function Parse(rest: string, part: StyledText, color: string -> Color): (r: seq<StyledText>)
    requires ColoursNamed(rest)
    ensures |r| >= 1
    decreases |rest|
  {
    if rest == [] then [part]
    else if Markup(rest) then
      var flushed := if part.text != "" then [part] else [];
      var next := if part.text != "" then Plain else part;
      flushed + Parse(AfterSpan(rest[2..]), Styled(next, SplitOn(RawSpan(rest[2..]), ' '), color), color)
    else Parse(rest[1..], part.(text := part.text + [rest[0]]), color)
  }

  /** Markup pushes a part only when it has text, so every part but the
      last has text. */
  lemma {:induction false} OnlyLastEmpty(rest: string, part: StyledText, color: string -> Color)
    requires ColoursNamed(rest)
    ensures forall i :: 0 <= i < |Parse(rest, part, color)| - 1 ==> Parse(rest, part, color)[i].text != ""
    decreases |rest|
  {
    if rest != [] {
      if Markup(rest) {
        var next := if part.text != "" then Plain else part;
        var styled := Styled(next, SplitOn(RawSpan(rest[2..]), ' '), color);
        OnlyLastEmpty(AfterSpan(rest[2..]), styled, color);
      } else {
        OnlyLastEmpty(rest[1..], part.(text := part.text + [rest[0]]), color);
      }
    }
  }

  /** The text with every style span removed. */
  function Strip(s: string): (r: string)
    decreases |s|
  {
    if s == [] then []
    else if Markup(s) then Strip(AfterSpan(s[2..]))
    else [s[0]] + Strip(s[1..])
  }

  /** The texts of the parts, one after another. */
  function Join(parts: seq<StyledText>): string
  {
    if parts == [] then [] else Join(parts[..|parts| - 1]) + parts[|parts| - 1].text
  }

  lemma {:induction false} JoinAppend(a: seq<StyledText>, b: seq<StyledText>)
    ensures Join(a + b) == Join(a) + Join(b)
    decreases |b|
  {
    if b != [] {
      var b' := b[..|b| - 1];
      assert (a + b)[..|a + b| - 1] == a + b';
      assert (a + b)[|a + b| - 1] == b[|b| - 1];
      JoinAppend(a, b');
    } else {
      assert a + b == a;
    }
  }

  /** The parts hold the part's text followed by `rest` with its spans
      removed. */
  lemma {:induction false} JoinParse(rest: string, part: StyledText, color: string -> Color)
    requires ColoursNamed(rest)
    ensures Join(Parse(rest, part, color)) == part.text + Strip(rest)
    decreases |rest|
  {
    if rest == [] {
      assert [part][..0] == [];
    } else if Markup(rest) {
      var next := if part.text != "" then Plain else part;
      var styled := Styled(next, SplitOn(RawSpan(rest[2..]), ' '), color);
      JoinParse(AfterSpan(rest[2..]), styled, color);
      JoinMarkup(rest, part, color);
    } else {
      JoinParse(rest[1..], part.(text := part.text + [rest[0]]), color);
      JoinChar(rest, part, color);
    }
  }

  /** The markup step of `JoinParse`: a span flushes the part and what
      follows it starts from an empty text. */
  lemma JoinMarkup(rest: string, part: StyledText, color: string -> Color)
    requires ColoursNamed(rest) && rest != [] && Markup(rest)
    requires
      var next := if part.text != "" then Plain else part;
      var styled := Styled(next, SplitOn(RawSpan(rest[2..]), ' '), color);
      Join(Parse(AfterSpan(rest[2..]), styled, color)) == styled.text + Strip(AfterSpan(rest[2..]))
    ensures Join(Parse(rest, part, color)) == part.text + Strip(rest)
  {
    var after := AfterSpan(rest[2..]);
    var styled := Styled(Restarted(part), SplitOn(RawSpan(rest[2..]), ' '), color);
    var tail := Parse(after, styled, color);
    assert Parse(rest, part, color) == Flushed(part) + tail;
    assert Strip(rest) == Strip(after);
    JoinFlushed(part, tail, Strip(after));
  }

  /** Flushing a part in front of parts that join to `t` joins to the
      part's text followed by `t`. */
  lemma JoinFlushed(part: StyledText, tail: seq<StyledText>, t: string)
    requires Join(tail) == t
    ensures Join(Flushed(part) + tail) == part.text + t
  {
    JoinAppend(Flushed(part), tail);
    if part.text != "" {
      assert [part][..0] == [];
    } else {
      assert part.text + t == t;
    }
  }

  /** The plain-character step of `JoinParse`: the character moves from
      the rest onto the part's text. */
  lemma JoinChar(rest: string, part: StyledText, color: string -> Color)
    requires ColoursNamed(rest) && rest != [] && !Markup(rest)
    requires
      var grown := part.(text := part.text + [rest[0]]);
      Join(Parse(rest[1..], grown, color)) == grown.text + Strip(rest[1..])
    ensures Join(Parse(rest, part, color)) == part.text + Strip(rest)
  {
    var grown := part.(text := part.text + [rest[0]]);
    assert Parse(rest, part, color) == Parse(rest[1..], grown, color);
    assert Strip(rest) == [rest[0]] + Strip(rest[1..]);
    Regroup(part.text, rest[0], Strip(rest[1..]));
  }

  lemma Regroup(a: string, c: char, b: string)
    ensures (a + [c]) + b == a + ([c] + b)
  {
  }

  /** Reading back a text gives what was set with its spans removed. */
  lemma GetStringAfterSetString(s: string, color: string -> Color)
    requires ColoursNamed(s)
    ensures Join(Parse(s, Plain, color)) == Strip(s)
  {
    JoinParse(s, Plain, color);
  }

  /** Two spans with no text between them style the same part. */
  lemma SpansAccumulate(a: string, b: string, rest: string, part: StyledText, color: string -> Color)
    requires ')' !in a && ')' !in b && part.text == ""
    requires TokensNamed(SplitOn(a, ' ')) && TokensNamed(SplitOn(b, ' ')) && ColoursNamed(rest)
    ensures ColoursNamed("^(" + a + ")^(" + b + ")" + rest)
    ensures Parse("^(" + a + ")^(" + b + ")" + rest, part, color)
         == Parse(rest, Styled(Styled(part, SplitOn(a, ' '), color), SplitOn(b, ' '), color), color)
  {
    var second := "^(" + b + ")" + rest;
    var whole := "^(" + a + ")" + second;
    assert "^(" + a + ")^(" + b + ")" + rest == whole;
    SpanParts(b, rest);
    assert ColoursNamed(second);
    SpanParts(a, second);
    assert ColoursNamed(whole);
    var p1 := Styled(part, SplitOn(a, ' '), color);
    assert Parse(whole, part, color) == [] + Parse(second, p1, color);
    assert p1.text == "";
    assert Parse(second, p1, color) == [] + Parse(rest, Styled(p1, SplitOn(b, ' '), color), color);
  }

  /** A span written as `^(a)` before `rest` reads as `a`, then `rest`. */
  lemma {:induction false} SpanParts(a: string, rest: string)
    requires ')' !in a
    ensures Markup("^(" + a + ")" + rest)
    ensures ("^(" + a + ")" + rest)[2..] == a + ")" + rest
    ensures RawSpan(a + ")" + rest) == a && AfterSpan(a + ")" + rest) == rest
    decreases |a|
  {
    var t := "^(" + a + ")" + rest;
    assert t[2..] == a + ")" + rest;
    if a != [] {
      assert (a + ")" + rest)[1..] == a[1..] + ")" + rest;
      SpanParts(a[1..], rest);
    } else {
      assert a + ")" + rest == [')'] + rest;
    }
  }

  /** A span that closes at `e`, or runs to the end when `e == |t|`. */
  lemma {:induction false} SpanEnds(t: string, e: nat)
    requires e <= |t| && ')' !in t[..e] && (e == |t| || t[e] == ')')
    ensures RawSpan(t) == t[..e]
    ensures AfterSpan(t) == (if e < |t| then t[e + 1..] else [])
    decreases e
  {
    if e > 0 {
      assert t[0] in t[..e];
      assert t[1..][..e - 1] == t[1..e] && t[1..e] == t[..e][1..];
      SpanEnds(t[1..], e - 1);
      assert e < |t| ==> t[1..][e..] == t[e + 1..];
      assert RawSpan(t) == [t[0]] + t[1..e];
    } else if e == |t| {
      assert t == [];
    }
  }

  /** The part pushed when a span starts: the current one if it has text. */
  function Flushed(part: StyledText): seq<StyledText>
  {
    if part.text != "" then [part] else []
  }

  /** The part a span's tokens style: a fresh one after a push, else the
      current one. */
  function Restarted(part: StyledText): StyledText
  {
    if part.text != "" then Plain else part
  }

  /** One pass of `setString`'s loop over a span starting at `index` whose
      `)` is at `e` (or `e == |s|`), after `done` parts were pushed. */
  lemma MarkupStep(s: string, index: nat, e: nat, done: seq<StyledText>, part: StyledText, color: string -> Color)
    requires index + 2 <= e <= |s| && s[index] == '^' && s[index + 1] == '(' && ColoursNamed(Tail(s, index))
    requires ')' !in s[index + 2..e] && (e == |s| || s[e] == ')')
    ensures ColoursNamed(Tail(s, e + 1)) && TokensNamed(SplitOn(s[index + 2..e], ' '))
    ensures done + Parse(Tail(s, index), part, color) ==
      (done + Flushed(part)) + Parse(Tail(s, e + 1), Styled(Restarted(part), SplitOn(s[index + 2..e], ' '), color), color)
  {
    SpanOf(s, index, e);
    var rest := Parse(Tail(s, e + 1), Styled(Restarted(part), SplitOn(s[index + 2..e], ' '), color), color);
    assert Parse(Tail(s, index), part, color) == Flushed(part) + rest;
    assert done + (Flushed(part) + rest) == (done + Flushed(part)) + rest;
  }

  /** Where a span that starts at `index` and closes at `e` sits. */
  lemma SpanOf(s: string, index: nat, e: nat)
    requires index + 2 <= e <= |s| && s[index] == '^' && s[index + 1] == '('
    requires ')' !in s[index + 2..e] && (e == |s| || s[e] == ')')
    ensures Markup(Tail(s, index))
    ensures RawSpan(Tail(s, index)[2..]) == s[index + 2..e]
    ensures AfterSpan(Tail(s, index)[2..]) == Tail(s, e + 1)
  {
    TailIs(s, index);
    TailIs(s, e + 1);
    var t := s[index..];
    assert t[2..] == s[index + 2..];
    assert t[2..][..e - index - 2] == s[index + 2..e];
    SpanEnds(t[2..], e - index - 2);
    assert e < |s| ==> t[2..][e - index - 2 + 1..] == s[e + 1..];
  }

  /** One pass of `setString`'s loop over a plain character. */
  lemma CharStep(s: string, index: nat, part: StyledText, color: string -> Color)
    requires index < |s| && ColoursNamed(Tail(s, index))
    requires !(s[index] == '^' && (if index + 1 < |s| then s[index + 1] else ' ') == '(')
    ensures ColoursNamed(Tail(s, index + 1))
    ensures Parse(Tail(s, index), part, color) == Parse(Tail(s, index + 1), part.(text := part.text + [s[index]]), color)
  {
    TailIs(s, index);
    TailIs(s, index + 1);
    assert s[index..][1..] == s[index + 1..];
  }

  /** The text from position `i` on; nothing past its end. */
  function Tail(s: string, i: nat): string
  {
    if i == 0 || s == [] then s else Tail(s[1..], i - 1)
  }

  lemma {:induction false} TailIs(s: string, i: nat)
    ensures Tail(s, i) == if i <= |s| then s[i..] else []
  {
    if i > 0 && s != [] {
      TailIs(s[1..], i - 1);
      assert i <= |s| ==> s[1..][i - 1..] == s[i..];
    }
  }

  /** The span branch of `setString`'s loop, from the `^(` at `index`: the
      characters up to the next `)` (or the end) are collected, split on
      spaces and applied to `part` one token at a time. The span ends at
      `e`, on its `)` or at the end of the text. */
  method ReadSpan(s: string, index: nat, part: StyledText, color: string -> Color) returns (e: nat, styled: StyledText)
    requires index + 1 < |s| && s[index] == '^' && s[index + 1] == '(' && ColoursNamed(Tail(s, index))
    ensures index + 2 <= e <= |s| && ')' !in s[index + 2..e] && (e == |s| || s[e] == ')')
    ensures TokensNamed(SplitOn(s[index + 2..e], ' '))
    ensures styled == Styled(part, SplitOn(s[index + 2..e], ' '), color)
  {
    var raw := "";
    e := index + 2;
    while (if e < |s| then s[e] else ')') != ')'
      invariant index + 2 <= e <= |s| && raw == s[index + 2..e] && ')' !in raw
      decreases |s| - e
    {
      raw := raw + [s[e]];
      e := e + 1;
    }
    SpanOf(s, index, e);
    var style := SplitOn(raw, ' ');
    styled := part;
    var i := 0;
    while i < |style|
      invariant 0 <= i <= |style| && TokensNamed(style[i..])
      invariant Styled(styled, style[i..], color) == Styled(part, style, color)
    {
      assert style[i..][1..] == style[i + 1..];
      styled := Apply(styled, style[i], color);
      i := i + 1;
    }
    assert style[i..] == [];
  }

  // ---------------------------------------------------------------------------
  // Text

  class Text {
    var text: seq<StyledText>
    var reload: bool
    var fontSize: byte

    /** `Text::new`: no parts, the default size, and a layout still to do. */
    constructor New()
      ensures text == [] && reload && fontSize == 48
    {
      text := [];
      reload := true;
      fontSize := 48;
    }

    /** `setString`: the old parts are dropped and `s` is split into styled
        parts; the text must be laid out again. */
    method SetString(s: string, color: string -> Color)
      requires ColoursNamed(s)
      modifies this`text, this`reload
      ensures text == Parse(s, Plain, color) && reload
    {
      var part := Plain;
      text := [];
      var index := 0;
      while index < |s|
        invariant index <= |s| + 1
        invariant ColoursNamed(Tail(s, index))
        invariant text + Parse(Tail(s, index), part, color) == Parse(s, Plain, color)
        decreases |s| + 1 - index
      {
        var c := s[index];
        if c == '^' && (if index + 1 < |s| then s[index + 1] else ' ') == '(' {
          ghost var start, before, part0 := index, text, part;
          if part.text != "" {
            text := text + [part];
            part := Plain;
          }
          index, part := ReadSpan(s, index, part, color);
          MarkupStep(s, start, index, before, part0, color);
          assert text == before + Flushed(part0);
          assert part == Styled(Restarted(part0), SplitOn(s[start + 2..index], ' '), color);
        } else {
          CharStep(s, index, part, color);
          part := part.(text := part.text + [c]);
        }
        index := index + 1;
      }
      TailIs(s, index);
      text := text + [part];
      reload := true;
    }

    /** `getString`: the parts' texts, one after another. */
    method GetString() returns (out: string)
      ensures out == Join(text)
    {
      out := "";
      var i := 0;
      while i < |text|
        invariant 0 <= i <= |text|
        invariant out == Join(text[..i])
      {
        assert text[..i + 1][..i] == text[..i];
        out := out + text[i].text;
        i := i + 1;
      }
      assert text[..i] == text;
    }

    /** `update` lays the text out (not modelled) and clears the flag. */
    method Update()
      modifies this`reload
      ensures !reload
    {
      reload := false;
    }

    method SetSize(size: byte)
      modifies this`fontSize, this`reload
      ensures fontSize == size && reload
    {
      fontSize := size;
      reload := true;
    }
  }

  // ---------------------------------------------------------------------------
  // Fonts and objects

  datatype FRect = FRect(x: real, y: real, w: real, h: real)

  datatype Glyph = Glyph(rect: FRect, offset: (int, int), advance: byte)

  const EmptyGlyph := Glyph(FRect(0.0, 0.0, 0.0, 0.0), (0, 0), 0)

  /** A bitmap font's glyphs, keyed by 16-bit character code. */
  datatype Font = Font(glyphs: map<int, Glyph>)

  /** `c as u16`: the low 16 bits of the code point. */
  function Code16(c: char): (k: int)
    ensures 0 <= k < 0x1_0000
  {
    c as int % 0x1_0000
  }

  /** `getGlyph`: the glyph loaded for `c`, or the all-zero glyph. */
  function GetGlyph(font: Font, c: char): (g: Glyph)
    ensures Code16(c) in font.glyphs ==> g == font.glyphs[Code16(c)]
    ensures Code16(c) !in font.glyphs ==> g == EmptyGlyph
  {
    if Code16(c) in font.glyphs then font.glyphs[Code16(c)] else EmptyGlyph
  }

  /** Characters whose code points agree in the low 16 bits share a glyph:
      a character beyond U+FFFF shows the glyph of the one 0x10000 below. */
  lemma GlyphAliases(font: Font, c: char, d: char)
    requires c as int == d as int + 0x1_0000
    ensures GetGlyph(font, c) == GetGlyph(font, d)
  {
    assert Code16(c) == Code16(d);
  }

  /** The `order` attribute's character at `k`, or the default there. */
  function CharOr(s: string, k: nat, default: char): char
  {
    if k < |s| then s[k] else default
  }

  /** `Object::parse`: the three order characters, each missing one filled
      with `i`, `t`, `c` by position. */
  function Order(attr: string): (r: seq<char>)
    ensures |r| == 3
    ensures |attr| >= 3 ==> r == attr[..3]
    ensures forall k :: |attr| <= k < 3 ==> r[k] == "itc"[k]
    ensures forall k :: 0 <= k < 3 && k < |attr| ==> r[k] == attr[k]
  {
    [CharOr(attr, 0, 'i'), CharOr(attr, 1, 't'), CharOr(attr, 2, 'c')]
  }
}
