// shlex.split(s) in POSIX mode without comments, as the Blender commands use it
// to turn the blender_cmd setting into an argument list.
module Shlex {
  import opened Wrappers
  import opened Text

  /** The characters shlex treats as whitespace. */
  predicate IsLexSpace(c: char) { c == ' ' || c == '\t' || c == '\r' || c == '\n' }

  /** Characters that end up in a token unchanged in every lexer state but whitespace. */
  predicate Plain(c: char) { !IsLexSpace(c) && c != '\'' && c != '"' && c != '\\' }

  predicate PlainWord(w: string) { w != [] && forall i :: 0 <= i < |w| ==> Plain(w[i]) }

  datatype Mode = Between | InSingle | InDouble | AfterBackslash | AfterBackslashInDouble

  function ValueError(message: string): Exception { Exception("ValueError", message) }

  /**
   * The lexer from index i on: `cur` is the token being built, `started` says
   * whether a token has begun (a quoted empty string is a token), `acc` the tokens so far.
   */
  function Lex(s: string, i: nat, mode: Mode, cur: string, started: bool, acc: seq<string>): (r: Result<seq<string>>)
    requires i <= |s|
    ensures r.Ok? ==> |r.value| >= |acc| && r.value[..|acc|] == acc
    decreases |s| - i
  {
    if i == |s| then
      match mode
      case Between => Ok(if started then acc + [cur] else acc)
      case InSingle => Raise(ValueError("No closing quotation"))
      case InDouble => Raise(ValueError("No closing quotation"))
      case AfterBackslash => Raise(ValueError("No escaped character"))
      case AfterBackslashInDouble => Raise(ValueError("No escaped character"))
    else
      var c := s[i];
      match mode
      case Between =>
        if IsLexSpace(c) then
          if started then
            var r := Lex(s, i + 1, Between, [], false, acc + [cur]);
            assert r.Ok? ==> r.value[..|acc|] == (r.value[..|acc| + 1])[..|acc|];
            r
          else Lex(s, i + 1, Between, [], false, acc)
        else if c == '\\' then Lex(s, i + 1, AfterBackslash, cur, true, acc)
        else if c == '\'' then Lex(s, i + 1, InSingle, cur, true, acc)
        else if c == '"' then Lex(s, i + 1, InDouble, cur, true, acc)
        else Lex(s, i + 1, Between, cur + [c], true, acc)
      case InSingle =>
        if c == '\'' then Lex(s, i + 1, Between, cur, true, acc) else Lex(s, i + 1, InSingle, cur + [c], true, acc)
      case InDouble =>
        if c == '"' then Lex(s, i + 1, Between, cur, true, acc)
        else if c == '\\' then Lex(s, i + 1, AfterBackslashInDouble, cur, true, acc)
        else Lex(s, i + 1, InDouble, cur + [c], true, acc)
      case AfterBackslash => Lex(s, i + 1, Between, cur + [c], true, acc)
      case AfterBackslashInDouble =>
        Lex(s, i + 1, InDouble, if c == '"' || c == '\\' then cur + [c] else cur + ['\\', c], true, acc)
  }

  /** shlex.split(s); an unclosed quote or a trailing backslash raises ValueError. */
  function Split(s: string): Result<seq<string>>
  {
    Lex(s, 0, Between, [], false, [])
  }

  /** Lexing a run of plain characters appends them to the token being built. */
  lemma {:induction false} LexPlainWord(s: string, i: nat, w: string, cur: string, started: bool, acc: seq<string>)
    requires At(s, i, w) && forall k :: 0 <= k < |w| ==> Plain(w[k])
    ensures Lex(s, i, Between, cur, started, acc) == Lex(s, i + |w|, Between, cur + w, started || w != [], acc)
    decreases |w|
  {
    if w != [] {
      assert s[i] == w[0];
      assert At(s, i + 1, w[1..]) by { assert s[i + 1..i + 1 + |w[1..]|] == s[i..i + |w|][1..]; }
      LexPlainWord(s, i + 1, w[1..], cur + [w[0]], true, acc);
      assert cur + [w[0]] + w[1..] == cur + w;
    } else {
      assert cur + w == cur;
    }
  }

  /** Where the first word of `s[i..] == w + " " + t` ends. */
  lemma WordThenSpace(s: string, i: nat, w: string, t: string)
    requires i <= |s| && s[i..] == w + " " + t
    ensures At(s, i, w) && i + |w| < |s| && s[i + |w|] == ' ' && s[i + |w| + 1..] == t
  {
    assert s[i..i + |w|] == s[i..][..|w|];
    assert s[i + |w|] == s[i..][|w|];
    assert s[i + |w| + 1..] == s[i..][|w| + 1..];
  }

  lemma {:induction false} LexJoined(s: string, i: nat, ws: seq<string>, acc: seq<string>)
    requires i <= |s| && s[i..] == Join(ws, " ")
    requires forall k :: 0 <= k < |ws| ==> PlainWord(ws[k])
    ensures Lex(s, i, Between, [], false, acc) == Ok(acc + ws)
    decreases |ws|
  {
    if ws == [] {
      assert i == |s| && acc + ws == acc;
    } else if |ws| == 1 {
      var w := ws[0];
      assert At(s, i, w) by { assert s[i..i + |w|] == s[i..]; }
      LexPlainWord(s, i, w, [], false, acc);
      assert [] + w == w && acc + [w] == acc + ws;
    } else {
      var w := ws[0];
      WordThenSpace(s, i, w, Join(ws[1..], " "));
      LexPlainWord(s, i, w, [], false, acc);
      assert [] + w == w;
      LexJoined(s, i + |w| + 1, ws[1..], acc + [w]);
      assert acc + [w] + ws[1..] == acc + ws;
    }
  }

  /** Splitting words of plain characters joined by single spaces gives the words back. */
  lemma SplitJoin(ws: seq<string>)
    requires forall k :: 0 <= k < |ws| ==> PlainWord(ws[k])
    ensures Split(Join(ws, " ")) == Ok(ws)
  {
    LexJoined(Join(ws, " "), 0, ws, []);
    assert [] + ws == ws;
  }

  /** The quoted part of the example: `"x y"` closes the word `--cli=x y`. */
  lemma QuotedTail(s: string)
    requires s == "b --cli=\"x y\""
    ensures Lex(s, 8, Between, "--cli=", true, ["b"]) == Ok(["b", "--cli=x y"])
  {
    assert |s| == 13 && s[8] == '"' && s[9] == 'x' && s[10] == ' ' && s[11] == 'y' && s[12] == '"';
    assert ["b"] + ["--cli=x y"] == ["b", "--cli=x y"];
    assert Lex(s, 12, InDouble, "--cli=x y", true, ["b"]) == Ok(["b", "--cli=x y"]);
    assert "--cli=x " + ['y'] == "--cli=x y";
    assert Lex(s, 11, InDouble, "--cli=x ", true, ["b"]) == Ok(["b", "--cli=x y"]);
    assert "--cli=x" + [' '] == "--cli=x ";
    assert Lex(s, 10, InDouble, "--cli=x", true, ["b"]) == Ok(["b", "--cli=x y"]);
    assert "--cli=" + ['x'] == "--cli=x";
  }

  /** The first word of the example, up to the blank after it. */
  lemma FirstWord(s: string)
    requires s == "b --cli=\"x y\""
    ensures Lex(s, 0, Between, [], false, []) == Lex(s, 2, Between, [], false, ["b"])
  {
    assert At(s, 0, "b") && Plain('b');
    LexPlainWord(s, 0, "b", [], false, []);
    assert [] + "b" == "b" && s[1] == ' ' && [] + ["b"] == ["b"];
  }

  /** The unquoted start of the second word. */
  lemma SecondWordStart(s: string)
    requires s == "b --cli=\"x y\""
    ensures Lex(s, 2, Between, [], false, ["b"]) == Lex(s, 8, Between, "--cli=", true, ["b"])
  {
    var w := "--cli=";
    assert s[2..8] == w;
    assert forall k :: 0 <= k < |w| ==> Plain(w[k]);
    LexPlainWord(s, 2, w, [], false, ["b"]);
    assert [] + w == w;
  }

  /** A double-quoted part becomes part of the surrounding word, without its quotes. */
  lemma SplitQuotedExample()
    ensures Split("b --cli=\"x y\"") == Ok(["b", "--cli=x y"])
  {
    var s := "b --cli=\"x y\"";
    FirstWord(s);
    SecondWordStart(s);
    QuotedTail(s);
  }

  lemma SplitUnclosed()
    ensures Split("b \"x") == Raise(ValueError("No closing quotation"))
  {
  }
}
