/** Command recognition in `main`: the input line is lowercased, then
    tested in a fixed order; `exit`, `add`, `list` and `help` must match
    exactly, `select `, `save ` and `load ` are prefixes that carry an
    argument. */
module Commands {
  import opened Json
  import opened Text
  import opened Select

  datatype Command =
    | Exit
    | Add
    | List
    | SelectCmd(shop: string)
    | SaveCmd(file: string)
    | LoadCmd(file: string)
    | Help
    | Unknown(command: string)
      /** `save`/`load` followed only by whitespace: `command.split(maxsplit=1)`
          yields one part and `parts[1]` raises `IndexError`. */
    | MissingFileName(command: string)

  /** Recognition of an already lowercased line. `select ` takes what
      follows its first space (`split(' ', maxsplit=1)`); `save ` and
      `load ` take what follows the whitespace run after the keyword
      (`split(maxsplit=1)`), trailing whitespace included. */
  function Dispatch(c: string): Command
  {
    if c == "exit" then Exit
    else if c == "add" then Add
    else if c == "list" then List
    else if "select " <= c then SelectCmd(c[7..])
    else if "save " <= c then
      var arg := SkipSpaces(c[4..]);
      if arg == [] then MissingFileName(c) else SaveCmd(arg)
    else if "load " <= c then
      var arg := SkipSpaces(c[4..]);
      if arg == [] then MissingFileName(c) else LoadCmd(arg)
    else if c == "help" then Help
    else Unknown(c)
  }

  /** `input(">>> ").lower()` followed by recognition. */
  function ParseCommand(line: string): Command
  {
    Dispatch(Lower(line))
  }

  /** The argument-free commands match only the exact (lowercased) word:
      `add ` with a trailing space, say, is an unknown command. */
  lemma KeywordsExact(line: string)
    ensures ParseCommand(line) == Exit <==> Lower(line) == "exit"
    ensures ParseCommand(line) == Add <==> Lower(line) == "add"
    ensures ParseCommand(line) == List <==> Lower(line) == "list"
    ensures ParseCommand(line) == Help <==> Lower(line) == "help"
  {
  }

  /** `select ` followed by anything selects exactly that text. */
  lemma SelectArgument(shop: string)
    ensures Dispatch("select " + shop) == SelectCmd(shop)
  {
    assert ("select " + shop)[7..] == shop;
  }

  /** A line starting with `save ` reaches the `save` branch. */
  lemma SaveBranch(c: string)
    requires "save " <= c
    ensures Dispatch(c) == if SkipSpaces(c[4..]) == [] then MissingFileName(c) else SaveCmd(SkipSpaces(c[4..]))
  {
    assert c[0] == 's' && c[1] == 'a' && c[4] == ' ';
    assert c != "exit" && c != "add" && c != "list";
    assert !("select " <= c);
  }

  /** A line starting with `load ` reaches the `load` branch. */
  lemma LoadBranch(c: string)
    requires "load " <= c
    ensures Dispatch(c) == if SkipSpaces(c[4..]) == [] then MissingFileName(c) else LoadCmd(SkipSpaces(c[4..]))
  {
    assert c[0] == 'l' && c[1] == 'o' && c[4] == ' ';
    assert c != "exit" && c != "add" && c != "list";
    assert !("select " <= c) && !("save " <= c);
  }

  /** A four-letter keyword, a whitespace run starting with a space, and
      a rest that does not start with whitespace: the keyword and the space
      make the prefix, and skipping whitespace after the keyword yields the
      rest. */
  lemma KeywordLine(kw: string, ws: string, rest: string)
    requires |kw| == 4 && ws != [] && ws[0] == ' ' && AllSpace(ws)
    requires rest == [] || !IsSpace(rest[0])
    ensures kw + " " <= kw + ws + rest
    ensures SkipSpaces((kw + ws + rest)[4..]) == rest
  {
    var c := kw + ws + rest;
    assert c[..5] == kw + " ";
    assert c[4..] == ws + rest by { assert c == kw + (ws + rest); }
    SkipSpacesPrefix(ws, rest);
  }

  lemma SaveNamed(ws: string, name: string)
    requires ws != [] && ws[0] == ' ' && AllSpace(ws)
    requires name != [] && !IsSpace(name[0])
    ensures Dispatch("save" + ws + name) == SaveCmd(name)
  {
    KeywordLine("save", ws, name);
    SaveBranch("save" + ws + name);
  }

  lemma LoadNamed(ws: string, name: string)
    requires ws != [] && ws[0] == ' ' && AllSpace(ws)
    requires name != [] && !IsSpace(name[0])
    ensures Dispatch("load" + ws + name) == LoadCmd(name)
  {
    KeywordLine("load", ws, name);
    LoadBranch("load" + ws + name);
  }

  /** `save`/`load`, a whitespace run starting with a space, and a name
      that does not start with whitespace: the argument is that name. */
  lemma FileArgument(ws: string, name: string)
    requires ws != [] && ws[0] == ' ' && AllSpace(ws)
    requires name != [] && !IsSpace(name[0])
    ensures Dispatch("save" + ws + name) == SaveCmd(name)
    ensures Dispatch("load" + ws + name) == LoadCmd(name)
  {
    SaveNamed(ws, name);
    LoadNamed(ws, name);
  }

  lemma FileCommandPrefix(c: string)
    requires Dispatch(c).SaveCmd? || Dispatch(c).LoadCmd?
    ensures "save " <= c || "load " <= c
  {
  }

  /** What skipping whitespace after a four-letter keyword and a space
      leaves: the argument is a suffix, and everything between the keyword
      and it is whitespace. */
  lemma SkipSpacesShape(c: string, f: string)
    requires |c| >= 5 && c[4] == ' ' && f == SkipSpaces(c[4..])
    ensures |c| >= 5 + |f| && AllSpace(c[4..|c| - |f|]) && c[|c| - |f|..] == f
  {
    var t := c[4..];
    assert t[0] == c[4];
    assert f == SkipSpaces(t[1..]);
    assert c[4..|c| - |f|] == t[..|t| - |f|];
    assert c[|c| - |f|..] == t[|t| - |f|..];
  }

  lemma SaveShape(c: string, f: string)
    requires Dispatch(c) == SaveCmd(f) && "save " <= c
    ensures |c| >= 5 + |f| && c[..5] == "save "
    ensures AllSpace(c[4..|c| - |f|]) && c[|c| - |f|..] == f
    ensures f != [] && !IsSpace(f[0])
  {
    SaveBranch(c);
    assert c[4] == ' ';
    SkipSpacesShape(c, f);
  }

  lemma LoadShape(c: string, f: string)
    requires Dispatch(c) == LoadCmd(f) && "load " <= c
    ensures |c| >= 5 + |f| && c[..5] == "load "
    ensures AllSpace(c[4..|c| - |f|]) && c[|c| - |f|..] == f
    ensures f != [] && !IsSpace(f[0])
  {
    LoadBranch(c);
    assert c[4] == ' ';
    SkipSpacesShape(c, f);
  }

  /** Conversely, a recognised `save` or `load` line is the keyword, a
      whitespace run starting with a space, and the argument. */
  lemma FileArgumentShape(c: string, f: string)
    requires Dispatch(c) == SaveCmd(f) || Dispatch(c) == LoadCmd(f)
    ensures |c| >= 5 + |f| && (c[..5] == "save " || c[..5] == "load ")
    ensures AllSpace(c[4..|c| - |f|]) && c[|c| - |f|..] == f
    ensures f != [] && !IsSpace(f[0])
  {
    FileCommandPrefix(c);
    if Dispatch(c) == SaveCmd(f) {
      SaveShape(c, f);
    } else {
      LoadShape(c, f);
    }
  }

  /** A four-letter keyword followed only by a whitespace run that starts
      with a space: the prefix test passes and nothing is left to skip to. */
  lemma KeywordOnly(kw: string, ws: string)
    requires |kw| == 4 && ws != [] && ws[0] == ' ' && AllSpace(ws)
    ensures kw + " " <= kw + ws
    ensures SkipSpaces((kw + ws)[4..]) == []
  {
    var c := kw + ws;
    assert c[..5] == kw + " ";
    assert c[4..] == ws + [];
    SkipSpacesPrefix(ws, []);
  }

  lemma SaveMissing(ws: string)
    requires ws != [] && ws[0] == ' ' && AllSpace(ws)
    ensures Dispatch("save" + ws) == MissingFileName("save" + ws)
  {
    KeywordOnly("save", ws);
    SaveBranch("save" + ws);
  }

  lemma LoadMissing(ws: string)
    requires ws != [] && ws[0] == ' ' && AllSpace(ws)
    ensures Dispatch("load" + ws) == MissingFileName("load" + ws)
  {
    KeywordOnly("load", ws);
    LoadBranch("load" + ws);
  }

  /** `save` or `load` with nothing but whitespace after it has no file
      name. */
  lemma FileArgumentMissing(ws: string)
    requires ws != [] && ws[0] == ' ' && AllSpace(ws)
    ensures Dispatch("save" + ws).MissingFileName?
    ensures Dispatch("load" + ws).MissingFileName?
  {
    SaveMissing(ws);
    LoadMissing(ws);
  }

  /** Everything that is none of the recognised forms is reported back
      verbatim (lowercased) as an unknown command. */
  lemma UnknownExactly(c: string)
    ensures Dispatch(c) == Unknown(c) <==>
      c != "exit" && c != "add" && c != "list" && c != "help" &&
      !("select " <= c) && !("save " <= c) && !("load " <= c)
  {
  }

  /** Because the whole line is lowercased, the shop argument of `select`
      is always lowercase. */
  lemma SelectShopIsLowercase(line: string)
    requires ParseCommand(line).SelectCmd?
    ensures IsLowercase(ParseCommand(line).shop)
  {
    LowerIsLowercase(line);
    LowercaseSuffix(Lower(line), 7);
  }

  /** Hence a good whose stored shop name has a capital letter is never
      selected by a typed `select` command: only goods without a `shop`
      key or with an all-lowercase shop can match. */
  lemma CapitalisedShopNeverSelected(line: string, g: Json)
    requires ParseCommand(line).SelectCmd?
    requires g.Obj? && "shop" in g.fields && g.fields["shop"].Str? && !IsLowercase(g.fields["shop"].s)
    ensures !Matches(g, ParseCommand(line).shop)
  {
    SelectShopIsLowercase(line);
  }
}
