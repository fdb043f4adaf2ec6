/**
 * How a text message is read as a bot command: aiogram's `Command` filter
 * (the `commands=` argument of a message handler) and `Message.get_args()`.
 */
module Commands {
  import opened Wrappers
  import opened Text

  /**
   * The lower-cased command a message invokes, or None. As the filter does,
   * the first whitespace-separated word must start with '/'; a `@mention`
   * after the name must name this bot (`username`), compared case-insensitively.
   */
  function CommandOf(text: string, username: string): (cmd: Option<string>) {
    var (word, _) := SplitFirst(StripLeft(text));
    if |word| == 0 || word[0] != '/' then None
    else
      var (name, mention) := Partition(word[1..], '@');
      if mention != "" && Lower(mention) != Lower(username) then None else Some(Lower(name))
  }

  /**
   * `Message.get_args()`: None unless the text itself starts with '/';
   * otherwise what follows the first word, leading whitespace removed.
   */
  function ArgsOf(text: string): (args: Option<string>) {
    if |text| == 0 || text[0] != '/' then None
    else Some(StripLeft(SplitFirst(text).1))
  }

  /** A text whose first character is neither whitespace nor '/' invokes no command. */
  lemma NotCommand(text: string, username: string)
    requires |text| > 0 && !IsSpace(text[0]) && text[0] != '/'
    ensures CommandOf(text, username) == None
  {
    StripLeft_NoSpace(text);
    assert SplitFirst(text).0 == [text[0]] + SplitFirst(text[1..]).0;
  }

  /** A text that invokes a command starts with whitespace or '/'. */
  lemma Command_Lead(text: string, username: string)
    ensures CommandOf(text, username).Some? ==> |text| > 0 && (IsSpace(text[0]) || text[0] == '/')
  {
    if |text| > 0 && !IsSpace(text[0]) && text[0] != '/' {
      NotCommand(text, username);
    }
  }

  lemma {:induction false} SplitFirst_Word(word: string, rest: string)
    requires forall i :: 0 <= i < |word| ==> !IsSpace(word[i])
    requires |rest| == 0 || IsSpace(rest[0])
    ensures SplitFirst(word + rest) == (word, rest)
  {
    if |word| > 0 {
      assert (word + rest)[1..] == word[1..] + rest;
      SplitFirst_Word(word[1..], rest);
      assert [word[0]] + word[1..] == word;
    } else {
      assert word + rest == rest;
    }
  }

  lemma {:induction false} Partition_NoSep(s: string, sep: char)
    requires forall i :: 0 <= i < |s| ==> s[i] != sep
    ensures Partition(s, sep) == (s, "")
  {
    if |s| > 0 {
      Partition_NoSep(s[1..], sep);
      assert [s[0]] + s[1..] == s;
    }
  }

  /**
   * A message `/name rest`, with a plain name and no mention, invokes `name`
   * lower-cased, and its arguments are `rest` without the leading blanks.
   */
  lemma Command_Plain(name: string, rest: string, username: string)
    requires forall i :: 0 <= i < |name| ==> !IsSpace(name[i]) && name[i] != '@'
    requires |rest| == 0 || IsSpace(rest[0])
    ensures CommandOf("/" + name + rest, username) == Some(Lower(name))
    ensures ArgsOf("/" + name + rest) == Some(StripLeft(rest))
  {
    var word := "/" + name;
    assert "/" + name + rest == word + rest;
    StripLeft_NoSpace(word + rest);
    SplitFirst_Word(word, rest);
    assert word[1..] == name;
    Partition_NoSep(name, '@');
  }

  /** `/add_sale 5` from the chat is the `add_sale` command with argument "5", which `int()` reads as 5. */
  lemma AddSaleFive(username: string)
    ensures CommandOf("/add_sale 5", username) == Some("add_sale")
    ensures ArgsOf("/add_sale 5") == Some("5")
    ensures ParseInt(ArgsOf("/add_sale 5").value) == Some(5)
  {
    assert "/" + "add_sale" + " 5" == "/add_sale 5";
    Command_Plain("add_sale", " 5", username);
    assert Lower("add_sale") == "add_sale";
    assert StripLeft(" 5") == "5" by {
      assert " 5"[1..] == "5";
      StripLeft_NoSpace("5");
    }
    ParseInt_Five();
  }
}
