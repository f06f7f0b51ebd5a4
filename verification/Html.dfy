/** HTML escaping, tag stripping and entity decoding of `docs.rs`, with the
    sequential global replacements the source performs. */
module Html {

  /** `str::replace`: non-overlapping matches, left to right. */
  function Replace(text: string, pattern: string, fill: string): string
    requires pattern != ""
    decreases |text|
  {
    if text == "" then ""
    else if pattern <= text then fill + Replace(text[|pattern|..], pattern, fill)
    else [text[0]] + Replace(text[1..], pattern, fill)
  }

  function Escape(raw: string): string {
    Replace(Replace(Replace(Replace(raw, "&", "&amp;"), "<", "&lt;"), ">", "&gt;"), "\"", "&quot;")
  }

  function Decode(raw: string): string {
    Replace(Replace(Replace(Replace(Replace(raw, "&lt;", "<"), "&gt;", ">"), "&quot;", "\""), "&#39;", "'"), "&amp;", "&")
  }

  /** The text outside tags, where `inTag` says whether a tag is open. */
  function Strip(raw: string, inTag: bool): string {
    if raw == "" then ""
    else if raw[0] == '<' then Strip(raw[1..], true)
    else if raw[0] == '>' then Strip(raw[1..], false)
    else if inTag then Strip(raw[1..], true)
    else [raw[0]] + Strip(raw[1..], false)
  }

  method StripTags(raw: string) returns (out: string)
    ensures out == Strip(raw, false)
  {
    out := "";
    var inTag := false;
    for i := 0 to |raw|
      invariant out + Strip(raw[i..], inTag) == Strip(raw, false)
    {
      assert raw[i..][0] == raw[i] && raw[i..][1..] == raw[i + 1..];
      if raw[i] == '<' {
        inTag := true;
      } else if raw[i] == '>' {
        inTag := false;
      } else if !inTag {
        out := out + [raw[i]];
      }
    }
  }

  // --------------------------------------------------- texts as token lists

  function Concat(tokens: seq<string>): string {
    if tokens == [] then "" else tokens[0] + Concat(tokens[1..])
  }

  function Swap(tokens: seq<string>, pattern: string, fill: string): (r: seq<string>)
    ensures |r| == |tokens|
  {
    seq(|tokens|, i requires 0 <= i < |tokens| => if tokens[i] == pattern then fill else tokens[i])
  }

  /** A token that a search for `pattern` cannot be misled by: it is the
      pattern, or it holds the pattern's first character at most in front and
      differs from the pattern within both lengths. */
  ghost predicate Clear(token: string, pattern: string)
    requires pattern != ""
  {
    token == pattern
    || (&& token != ""
        && (forall i | 1 <= i < |token| :: token[i] != pattern[0])
        && (exists i :: 0 <= i < |token| && i < |pattern| && token[i] != pattern[i]))
  }

  /** Replacement skips a clear token that is not the pattern. */
  lemma {:induction false} SkipToken(token: string, rest: string, pattern: string, fill: string)
    requires pattern != "" && (forall i | 0 <= i < |token| :: token[i] != pattern[0])
    ensures Replace(token + rest, pattern, fill) == token + Replace(rest, pattern, fill)
  {
    if token == "" {
      assert token + rest == rest;
    } else {
      var text := token + rest;
      assert text[0] == token[0] && text[1..] == token[1..] + rest;
      SkipToken(token[1..], rest, pattern, fill);
      assert token == [token[0]] + token[1..];
    }
  }

  lemma ReplaceToken(token: string, rest: string, pattern: string, fill: string)
    requires pattern != "" && Clear(token, pattern)
    ensures Replace(token + rest, pattern, fill) == (if token == pattern then fill else token) + Replace(rest, pattern, fill)
  {
    var text := token + rest;
    if token == pattern {
      assert text[|pattern|..] == rest && pattern <= text;
    } else {
      var i :| 0 <= i < |token| && i < |pattern| && token[i] != pattern[i];
      assert text[i] == token[i];
      assert !(pattern <= text);
      assert text[0] == token[0] && text[1..] == token[1..] + rest;
      SkipToken(token[1..], rest, pattern, fill);
      assert token == [token[0]] + token[1..];
    }
  }

  /** On a text made of clear tokens, global replacement acts token by token. */
  lemma {:induction false} ReplaceTokens(tokens: seq<string>, pattern: string, fill: string)
    requires pattern != "" && forall i | 0 <= i < |tokens| :: Clear(tokens[i], pattern)
    ensures Replace(Concat(tokens), pattern, fill) == Concat(Swap(tokens, pattern, fill))
  {
    if tokens != [] {
      ReplaceToken(tokens[0], Concat(tokens[1..]), pattern, fill);
      ReplaceTokens(tokens[1..], pattern, fill);
      assert Swap(tokens, pattern, fill)[1..] == Swap(tokens[1..], pattern, fill);
    }
  }

  // ------------------------------------------------- one character at a time

  /** The token a character has after `stage` of the replacements: 0 is the
      character itself, 1 to 4 the escapes, 5 to 9 the decodings. */
  function Token(c: char, stage: nat): string {
    if c == '&' && 1 <= stage <= 8 then "&amp;"
    else if c == '<' && 2 <= stage <= 4 then "&lt;"
    else if c == '>' && 3 <= stage <= 5 then "&gt;"
    else if c == '"' && 4 <= stage <= 6 then "&quot;"
    else [c]
  }

  function Tokens(text: string, stage: nat): (r: seq<string>)
    ensures |r| == |text|
  {
    seq(|text|, i requires 0 <= i < |text| => Token(text[i], stage))
  }

  function Pattern(stage: nat): (p: string)
    requires 1 <= stage <= 9
    ensures p != ""
  {
    match stage
    case 1 => "&" case 2 => "<" case 3 => ">" case 4 => "\""
    case 5 => "&lt;" case 6 => "&gt;" case 7 => "&quot;" case 8 => "&#39;" case _ => "&amp;"
  }

  function By(stage: nat): string
    requires 1 <= stage <= 9
  {
    match stage
    case 1 => "&amp;" case 2 => "&lt;" case 3 => "&gt;" case 4 => "&quot;"
    case 5 => "<" case 6 => ">" case 7 => "\"" case 8 => "'" case _ => "&"
  }

  /** Each stage finds only clear tokens and turns each into the next stage's. */
  lemma TokenStep(c: char, stage: nat)
    requires 1 <= stage <= 9
    ensures Clear(Token(c, stage - 1), Pattern(stage))
    ensures Token(c, stage) == if Token(c, stage - 1) == Pattern(stage) then By(stage) else Token(c, stage - 1)
  {
    var token, pattern := Token(c, stage - 1), Pattern(stage);
    if token != pattern {
      if token[0] != pattern[0] {
        assert token[0] != pattern[0];
      } else {
        assert token[0] == '&' && |token| > 1 && |pattern| > 1;
        assert token[1] != pattern[1];
      }
    }
  }

  lemma StageStep(text: string, stage: nat)
    requires 1 <= stage <= 9
    ensures Replace(Concat(Tokens(text, stage - 1)), Pattern(stage), By(stage)) == Concat(Tokens(text, stage))
  {
    hide Token, Pattern, By, Clear;
    var before, pattern, fill := Tokens(text, stage - 1), Pattern(stage), By(stage);
    forall i | 0 <= i < |before|
      ensures Clear(before[i], pattern) && Swap(before, pattern, fill)[i] == Tokens(text, stage)[i]
    {
      TokenStep(text[i], stage);
    }
    ReplaceTokens(before, pattern, fill);
    assert Swap(before, pattern, fill) == Tokens(text, stage);
  }

  lemma {:induction false} SingleTokens(text: string, stage: nat)
    requires stage == 0 || stage == 9
    ensures Concat(Tokens(text, stage)) == text
  {
    if text != "" {
      SingleTokens(text[1..], stage);
      assert Tokens(text, stage)[1..] == Tokens(text[1..], stage);
      assert text == [text[0]] + text[1..];
    }
  }

  // -------------------------------------------------------------- theorems

  /** Escaping acts character by character, although the source does it with
      four passes over the whole text. */
  lemma EscapeIsPerCharacter(text: string)
    ensures Escape(text) == Concat(Tokens(text, 4))
  {
    hide Token, Replace, Concat;
    SingleTokens(text, 0);
    StageStep(text, 1);
    StageStep(text, 2);
    StageStep(text, 3);
    StageStep(text, 4);
  }

  lemma {:induction false} StripNothing(text: string)
    requires '<' !in text && '>' !in text
    ensures Strip(text, false) == text
  {
    if text != "" {
      StripNothing(text[1..]);
      assert text == [text[0]] + text[1..];
    }
  }

  lemma {:induction false} EscapedHasNoTags(text: string)
    ensures var escaped := Concat(Tokens(text, 4)); '<' !in escaped && '>' !in escaped && '"' !in escaped
  {
    if text != "" {
      EscapedHasNoTags(text[1..]);
      assert Tokens(text, 4)[1..] == Tokens(text[1..], 4);
    }
  }

  /** For every text: escape it, strip tags, decode entities, and the text is
      back; the tag stripping in between removes nothing. */
  lemma DecodeStripEscape(text: string)
    ensures Strip(Escape(text), false) == Escape(text)
    ensures Decode(Strip(Escape(text), false)) == text
  {
    hide Token, Replace, Concat;
    EscapeIsPerCharacter(text);
    EscapedHasNoTags(text);
    StripNothing(Escape(text));
    StageStep(text, 5);
    StageStep(text, 6);
    StageStep(text, 7);
    StageStep(text, 8);
    StageStep(text, 9);
    SingleTokens(text, 9);
  }
}
