/** Commands rendered for a remote shell, against the words that shell reads back. */
module Quote {
  import opened Base

  /** `value` with every single quote closed, double-quoted and reopened. */
  function Replaced(value: string): string {
    if value == "" then ""
    else (if value[0] == '\'' then "'\"'\"'" else [value[0]]) + Replaced(value[1..])
  }

  function QuotePosix(value: string): string {
    "'" + Replaced(value) + "'"
  }

  function Joined(parts: seq<string>): string {
    if parts == [] then ""
    else if |parts| == 1 then parts[0]
    else parts[0] + " " + Joined(parts[1..])
  }

  function AllQuoted(values: seq<string>): seq<string> {
    if values == [] then [] else [QuotePosix(values[0])] + AllQuoted(values[1..])
  }

  function RenderRemoteCommand(executable: string, args: seq<string>): string {
    Joined(AllQuoted([executable] + args))
  }

  // ----- sections 2.2 and 2.3 of the POSIX Shell Command Language -----

  datatype Mode = Unquoted | SingleQuoted | DoubleQuoted

  /** Characters that mean something other than themselves, always or in some places, when unquoted. */
  predicate Active(c: char) {
    c in "|&;<>()$`\n*?[]^-!#~=%{,}"
  }

  function Extended(word: Option<string>, text: string): Option<string> {
    Some((if word.Some? then word.value else "") + text)
  }

  function Finished(words: seq<string>, word: Option<string>): seq<string> {
    if word.Some? then words + [word.value] else words
  }

  /**
   * The words of a line that holds only words. None when a quote stays open, or when anything is
   * left for an operator, a comment or an expansion to act on.
   */
  function Lexed(text: string, mode: Mode, words: seq<string>, word: Option<string>): Option<seq<string>>
    decreases |text|
  {
    if text == "" then
      if mode.Unquoted? then Some(Finished(words, word)) else None
    else
      var c, rest := text[0], text[1..];
      match mode
      case Unquoted =>
        if c == ' ' || c == '\t' then Lexed(rest, mode, Finished(words, word), None)
        else if c == '\'' then Lexed(rest, SingleQuoted, words, Extended(word, ""))
        else if c == '"' then Lexed(rest, DoubleQuoted, words, Extended(word, ""))
        else if c == '\\' then
          if rest == "" then None
          else if rest[0] == '\n' then Lexed(rest[1..], mode, words, word)
          else Lexed(rest[1..], mode, words, Extended(word, rest[..1]))
        else if Active(c) then None
        else Lexed(rest, mode, words, Extended(word, [c]))
      case SingleQuoted =>
        if c == '\'' then Lexed(rest, Unquoted, words, word) else Lexed(rest, mode, words, Extended(word, [c]))
      case DoubleQuoted =>
        if c == '"' then Lexed(rest, Unquoted, words, word)
        else if c == '$' || c == '`' then None
        else if c == '\\' && rest != "" && rest[0] in "$`\"\\" then
          Lexed(rest[1..], mode, words, Extended(word, rest[..1]))
        else if c == '\\' && rest != "" && rest[0] == '\n' then Lexed(rest[1..], mode, words, word)
        else Lexed(rest, mode, words, Extended(word, [c]))
  }

  function Words(line: string): Option<seq<string>> {
    Lexed(line, Unquoted, [], None)
  }

  /** Inside the quotes, the replaced text reads back as the text, and the closing quote ends it. */
  lemma {:induction false} BodyReadsBack(value: string, tail: string, words: seq<string>, word: string)
    ensures Lexed(Replaced(value) + "'" + tail, SingleQuoted, words, Some(word))
         == Lexed(tail, Unquoted, words, Some(word + value))
    decreases |value|
  {
    if value == "" {
      assert Replaced(value) + "'" + tail == "'" + tail && word + value == word;
      assert ("'" + tail)[1..] == tail;
    } else {
      var rest := Replaced(value[1..]) + "'" + tail;
      BodyReadsBack(value[1..], tail, words, word + [value[0]]);
      assert word + [value[0]] + value[1..] == word + value;
      if value[0] == '\'' {
        QuoteReadsBack(rest, words, word);
        assert Replaced(value) + "'" + tail == "'\"'\"'" + rest;
      } else {
        assert Replaced(value) + "'" + tail == [value[0]] + rest;
        assert ([value[0]] + rest)[1..] == rest;
      }
    }
  }

  /** The five characters that stand for one single quote. */
  lemma QuoteReadsBack(rest: string, words: seq<string>, word: string)
    ensures Lexed("'\"'\"'" + rest, SingleQuoted, words, Some(word))
         == Lexed(rest, SingleQuoted, words, Some(word + "'"))
  {
    var text := "'\"'\"'" + rest;
    assert text[1..] == "\"'\"'" + rest;
    assert text[1..][1..] == "'\"'" + rest;
    assert text[1..][1..][1..] == "\"'" + rest;
    assert text[1..][1..][1..][1..] == "'" + rest;
    assert text[1..][1..][1..][1..][1..] == rest;
    assert word + "" == word && word + "'" + "" == word + "'";
    calc {
      Lexed(text, SingleQuoted, words, Some(word));
      Lexed("\"'\"'" + rest, Unquoted, words, Some(word));
      Lexed("'\"'" + rest, DoubleQuoted, words, Some(word));
      Lexed("\"'" + rest, DoubleQuoted, words, Some(word + "'"));
      Lexed("'" + rest, Unquoted, words, Some(word + "'"));
      Lexed(rest, SingleQuoted, words, Some(word + "'"));
    }
  }

  /** A quoted value at the start of a word is read as exactly that value. */
  lemma ValueReadsBack(value: string, tail: string, words: seq<string>)
    ensures Lexed(QuotePosix(value) + tail, Unquoted, words, None) == Lexed(tail, Unquoted, words, Some(value))
  {
    var body := Replaced(value) + "'" + tail;
    assert QuotePosix(value) + tail == "'" + body;
    assert ("'" + body)[1..] == body && "" + value == value;
    assert |Extended(None, "").value| == 0;
    BodyReadsBack(value, tail, words, "");
    assert Lexed("'" + body, Unquoted, words, None) == Lexed(body, SingleQuoted, words, Some(""));
  }

  lemma {:induction false} JoinedReadsBack(values: seq<string>, words: seq<string>)
    requires values != []
    ensures Lexed(Joined(AllQuoted(values)), Unquoted, words, None) == Some(words + values)
    decreases |values|
  {
    var quoted := AllQuoted(values);
    assert quoted[1..] == AllQuoted(values[1..]);
    if |values| == 1 {
      assert AllQuoted(values[1..]) == [];
      ValueReadsBack(values[0], "", words);
      assert QuotePosix(values[0]) + "" == QuotePosix(values[0]) && values == [values[0]];
    } else {
      var rest := Joined(quoted[1..]);
      assert AllQuoted(values[1..]) != [];
      ValueReadsBack(values[0], " " + rest, words);
      assert Joined(quoted) == QuotePosix(values[0]) + (" " + rest);
      assert (" " + rest)[1..] == rest;
      JoinedReadsBack(values[1..], words + [values[0]]);
      assert words + [values[0]] + values[1..] == words + values;
    }
  }

  /** The remote shell reads exactly the executable and its arguments, and nothing it would act on. */
  lemma CommandReadsBack(executable: string, args: seq<string>)
    ensures Words(RenderRemoteCommand(executable, args)) == Some([executable] + args)
  {
    var values := [executable] + args;
    JoinedReadsBack(values, []);
    assert [] + values == values;
  }
}
