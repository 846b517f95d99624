/**
  Generation of a config header from make variables: the list of options is split and
  stripped of defaults, each option is echoed as "name.value", and two sed programs turn
  those lines into #define directives.  The text of an option goes through make a second time,
  as part of a recipe, and through the shell between single quotes before it is echoed.
*/
module ConfigHeader {
  import opened Types

  type Vars = map<string, string>

  // ---------- The text tools ----------

  /** The position of the first `c`, or the length. */
  function IndexOf(s: string, c: char): (i: nat)
    ensures i <= |s|
    ensures i < |s| ==> s[i] == c
    ensures c !in s[..i]
  {
    if s == [] || s[0] == c then 0 else 1 + IndexOf(s[1..], c)
  }

  lemma {:induction false} IndexAfter(p: string, c: char, rest: string)
    requires c !in p
    ensures IndexOf(p + [c] + rest, c) == |p|
  {
    var s := p + [c] + rest;
    if p == [] {
    } else {
      assert s[1..] == p[1..] + [c] + rest;
      IndexAfter(p[1..], c, rest);
    }
  }

  predicate IsBlank(c: char) {
    c == ' ' || c == '\t' || c == '\n'
  }

  /** The words of a string: tr makes a line of each, and foreach drops the empty ones. */
  function Words(s: string): seq<string> {
    WordsFrom(s, "")
  }

  function WordsFrom(s: string, word: string): seq<string>
    decreases s
  {
    if s == [] then (if word == "" then [] else [word])
    else if IsBlank(s[0]) then (if word == "" then [] else [word]) + WordsFrom(s[1..], "")
    else WordsFrom(s[1..], word + [s[0]])
  }

  /** s/^\([^ =]*\)\(=[^ ]\+\|\)$/\1/ : the name of an option given with or without a default. */
  function StripDefault(word: string): string {
    var i := IndexOf(word, '=');
    if i == |word| || i + 1 == |word| || ' ' in word then word else word[..i]
  }

  /** The line matches ^[^.]*\.tail$ */
  predicate DotTail(line: string, tail: string) {
    var i := IndexOf(line, '.');
    i < |line| && line[i + 1..] == tail
  }

  /** The first sed: deletes what is off, and turns y and m into 1. */
  function Switches(line: string): Option<string> {
    if DotTail(line, "n") || DotTail(line, "") then None
    else if DotTail(line, "y") || DotTail(line, "m") then Some(line[..IndexOf(line, '.')] + ".1")
    else Some(line)
  }

  /** The second sed: the first dot separates name and value; other lines are not printed. */
  function Define(line: string): Option<string> {
    var i := IndexOf(line, '.');
    if i == |line| then None else Some("#define " + line[..i] + " " + line[i + 1..])
  }

  function Print(line: string): seq<string> {
    match Switches(line)
    case None => []
    case Some(kept) => if Define(kept).Some? then [Define(kept).value] else []
  }

  function Value(vars: Vars, name: string): string {
    if name in vars then vars[name] else ""
  }

  // ---------- From the variables to the lines ----------

  /** What is known of the output of a recipe's echo: one line, a syntax error, or nothing. */
  datatype Outcome = Line(text: string) | Fails | Unknown

  /** Characters that mean nothing to the shell outside quotes. */
  predicate Ordinary(c: char) {
    'a' <= c <= 'z' || 'A' <= c <= 'Z' || '0' <= c <= '9' || c in "_-.,/:+@%"
  }

  function Prepend(c: char, rest: Outcome): Outcome {
    if rest.Line? then Line([c] + rest.text) else rest
  }

  /**
    The recipe line echo '<text>', read by make and then by the shell, from inside or outside
    the quotes.  make turns two dollars into one; the shell drops quotes, which end and begin
    quoting, and a quote left open is a syntax error.  What a reference expands to, a line end,
    a backslash and special characters outside the quotes bring about is not known here.
  */
  function Echoed(text: string, quoted: bool): Outcome
    decreases |text|
  {
    if text == [] then (if quoted then Line("") else Fails)
    else if text[0] == '\'' then Echoed(text[1..], !quoted)
    else if text[0] == '\n' || text[0] == '\\' then Unknown
    else if text[0] == '$' then
      if quoted && |text| >= 2 && text[1] == '$' then Prepend('$', Echoed(text[2..], quoted)) else Unknown
    else if quoted || Ordinary(text[0]) then Prepend(text[0], Echoed(text[1..], quoted))
    else Unknown
  }

  /** What make hands to the shell: two dollars are one; any other dollar begins a reference. */
  function Expanded(text: string): Option<string>
    decreases |text|
  {
    if text == [] then Some("")
    else if text[0] != '$' then
      var rest := Expanded(text[1..]);
      if rest.None? then None else Some([text[0]] + rest.value)
    else if |text| >= 2 && text[1] == '$' then
      var rest := Expanded(text[2..]);
      if rest.None? then None else Some("$" + rest.value)
    else None
  }

  /** What the shell echoes of a text, from inside or outside the quotes. */
  function Unquoted(text: string, quoted: bool): Outcome {
    if text == [] then (if quoted then Line("") else Fails)
    else if text[0] == '\'' then Unquoted(text[1..], !quoted)
    else if text[0] != '\n' && text[0] != '\\' && (quoted || Ordinary(text[0])) then
      Prepend(text[0], Unquoted(text[1..], quoted))
    else Unknown
  }

  /** The one pass does what make and the shell do one after the other. */
  lemma {:induction false} EchoedInTwoPasses(text: string, quoted: bool)
    ensures Echoed(text, quoted) ==
            match Expanded(text) case None => Unknown case Some(line) => Unquoted(line, quoted)
    decreases |text|
  {
    if text == [] {
    } else if text[0] != '$' {
      EchoedInTwoPasses(text[1..], if text[0] == '\'' then !quoted else quoted);
      if Expanded(text[1..]).Some? {
        assert ([text[0]] + Expanded(text[1..]).value)[1..] == Expanded(text[1..]).value;
      }
    } else if |text| >= 2 && text[1] == '$' {
      EchoedInTwoPasses(text[2..], quoted);
      if Expanded(text[2..]).Some? {
        assert ("$" + Expanded(text[2..]).value)[1..] == Expanded(text[2..]).value;
      }
    }
  }

  /** The lines that come out where nothing is known of them; texts not listed make the recipe fail. */
  type World = map<string, seq<string>>

  /** The lines a recipe echoes for a text of the template. */
  function Recipe(world: World, text: string): Option<seq<string>> {
    match Echoed(text, true)
    case Line(line) => Some([line])
    case Fails => None
    case Unknown => if text in world then Some(world[text]) else None
  }

  /** Text that neither make nor the shell changes. */
  predicate Plain(text: string) {
    '\n' !in text && '$' !in text && '\'' !in text && '\\' !in text
  }

  function PrintAll(lines: seq<string>): seq<string> {
    if lines == [] then [] else Print(lines[0]) + PrintAll(lines[1..])
  }

  /** The lines of the header for the options; None if the recipe fails. */
  function Defines(world: World, vars: Vars, names: seq<string>): Option<seq<string>> {
    if names == [] then Some([])
    else
      var lines, rest := Recipe(world, names[0] + "." + Value(vars, names[0])), Defines(world, vars, names[1..]);
      if lines.None? || rest.None? then None else Some(PrintAll(lines.value) + rest.value)
  }

  /** The names of the options; foreach drops one that is all default. */
  function Names(words: seq<string>): seq<string> {
    if words == [] then []
    else
      var name := StripDefault(words[0]);
      (if name == "" then [] else [name]) + Names(words[1..])
  }

  /** The option list as $(shell echo '...') gives it back; quotes and backslashes are not part of this model. */
  function Listed(options: string): Option<string> {
    if '\'' in options || '\\' in options then None else Some(options)
  }

  /** The header for an option list, between its include guard. */
  function Header(world: World, vars: Vars, options: string, barrier: string): Option<seq<string>> {
    match Listed(options)
    case None => None
    case Some(text) =>
      var defines := Defines(world, vars, Names(Words(text)));
      if defines.None? then None
      else Some(["#ifndef " + barrier, "#define " + barrier] + defines.value + ["#endif /*" + barrier + "*/"])
  }

  // ---------- Reading a header ----------

  /** The name and value a line defines, as the preprocessor reads it. */
  function Parse(line: string): Option<(string, string)> {
    if |line| >= 8 && line[..8] == "#define " then
      var rest := line[8..];
      var i := IndexOf(rest, ' ');
      Some((rest[..i], if i == |rest| then "" else rest[i + 1..]))
    else None
  }

  predicate DefinesName(line: string, name: string) {
    Parse(line).Some? && Parse(line).value.0 == name
  }

  /** The value of `name` after the lines; the last definition counts. */
  function Lookup(lines: seq<string>, name: string): Option<string> {
    if lines == [] then None
    else if Lookup(lines[1..], name).Some? then Lookup(lines[1..], name)
    else if DefinesName(lines[0], name) then Some(Parse(lines[0]).value.1)
    else None
  }

  /** What an option should read as. */
  function Meaning(value: string): Option<string> {
    if value == "y" || value == "m" then Some("1")
    else if value == "n" || value == "" then None
    else Some(value)
  }

  // ---------- One option ----------

  lemma ParseDefine(name: string, value: string)
    requires ' ' !in name
    ensures Parse("#define " + name + " " + value) == Some((name, value))
  {
    var line := "#define " + name + " " + value;
    assert line[..8] == "#define ";
    assert line[8..] == name + [' '] + value;
    var rest := name + [' '] + value;
    IndexAfter(name, ' ', value);
    assert rest[..|name|] == name && rest[|name| + 1..] == value;
  }

  lemma PrintOption(name: string, value: string)
    requires '.' !in name
    ensures Print(name + "." + value) ==
            if Meaning(value).None? then [] else ["#define " + name + " " + Meaning(value).value]
  {
    var line := name + ['.'] + value;
    assert line == name + "." + value;
    IndexAfter(name, '.', value);
    assert line[|name| + 1..] == value && line[..|name|] == name;
    if value == "y" || value == "m" {
      var one := name + ['.'] + "1";
      assert one == name + ".1";
      IndexAfter(name, '.', "1");
      assert one[|name| + 1..] == "1" && one[..|name|] == name;
    }
  }

  // ---------- The whole header ----------

  predicate Clean(name: string) {
    '.' !in name && ' ' !in name
  }

  lemma {:induction false} LookupConcat(a: seq<string>, b: seq<string>, name: string)
    ensures Lookup(a + b, name) == if Lookup(b, name).Some? then Lookup(b, name) else Lookup(a, name)
  {
    if a == [] {
      assert a + b == b;
    } else {
      assert (a + b)[1..] == a[1..] + b;
      LookupConcat(a[1..], b, name);
    }
  }

  lemma LookupPrint(x: string, value: string, name: string)
    requires Clean(x)
    ensures Lookup(Print(x + "." + value), name) == if name == x then Meaning(value) else None
  {
    PrintOption(x, value);
    if Meaning(value).Some? {
      ParseDefine(x, Meaning(value).value);
      assert Lookup([], name) == None;
    }
  }

  lemma {:induction false} PlainEchoed(text: string)
    requires Plain(text)
    ensures Echoed(text, true) == Line(text)
  {
    if text == [] {
    } else {
      PlainEchoed(text[1..]);
    }
  }

  /** What comes out is never longer, and shorter by every quote and every second dollar. */
  lemma {:induction false} EchoedShorter(text: string, quoted: bool)
    requires Echoed(text, quoted).Line?
    ensures var line := Echoed(text, quoted).text;
            && |line| <= |text| && ('$' in text || '\'' in text ==> |line| < |text|)
            && '\n' !in text && '\\' !in text && ('\'' !in text ==> quoted)
    decreases |text|
  {
    if text == [] {
    } else if text[0] == '$' {
      EchoedShorter(text[2..], quoted);
      assert text == ['$', '$'] + text[2..];
    } else {
      EchoedShorter(text[1..], if text[0] == '\'' then !quoted else quoted);
      assert text == [text[0]] + text[1..];
    }
  }

  /** A text comes out unchanged exactly if it is plain. */
  lemma PlainIff(text: string)
    ensures Echoed(text, true) == Line(text) <==> Plain(text)
  {
    if Echoed(text, true) == Line(text) {
      EchoedShorter(text, true);
    }
    if Plain(text) {
      PlainEchoed(text);
    }
  }

  /** `a` is what comes out of the front `p` of a text, read from `quoted` to `q`. */
  ghost predicate Part(p: string, quoted: bool, a: string, q: bool) {
    && |a| <= |p| && ('$' in p || '\'' in p ==> |a| < |p|) && (Plain(p) ==> a == p && q == quoted)
    && '\n' !in p && '\\' !in p
    && forall d :: d != '$' && d != '\'' ==> (d in a <==> d in p)
  }

  lemma PartDollars(p: string, quoted: bool, a: string, q: bool)
    requires Part(p, quoted, a, q)
    ensures Part(['$', '$'] + p, quoted, ['$'] + a, q)
  {
  }

  lemma PartQuote(p: string, quoted: bool, a: string, q: bool)
    requires Part(p, !quoted, a, q)
    ensures Part(['\''] + p, quoted, a, q)
  {
  }

  lemma PartChar(c: char, p: string, quoted: bool, a: string, q: bool)
    requires Part(p, quoted, a, q) && Plain([c])
    ensures Part([c] + p, quoted, [c] + a, q)
  {
    assert c in [c];
  }

  /** An echoed text with an ordinary character in it gives `a` before and `b` after that character. */
  ghost predicate Splits(p: string, c: char, rest: string, quoted: bool, a: string, b: string, q: bool) {
    && Echoed(p + [c] + rest, quoted) == Line(a + [c] + b) && Echoed(rest, q) == Line(b)
    && Part(p, quoted, a, q)
  }

  lemma SplitsDollars(p: string, c: char, rest: string, a: string, b: string, q: bool)
    requires Splits(p, c, rest, true, a, b, q)
    ensures Splits(['$', '$'] + p, c, rest, true, ['$'] + a, b, q)
  {
    PartDollars(p, true, a, q);
    SplitHead(['$', '$'] + p, c, rest, 2);
    assert ['$'] + (a + [c] + b) == ['$'] + a + [c] + b;
  }

  lemma SplitsQuote(p: string, c: char, rest: string, quoted: bool, a: string, b: string, q: bool)
    requires Splits(p, c, rest, !quoted, a, b, q)
    ensures Splits(['\''] + p, c, rest, quoted, a, b, q)
  {
    PartQuote(p, quoted, a, q);
    SplitHead(['\''] + p, c, rest, 1);
  }

  lemma SplitsChar(d: char, p: string, c: char, rest: string, quoted: bool, a: string, b: string, q: bool)
    requires Splits(p, c, rest, quoted, a, b, q) && Plain([d]) && (quoted || Ordinary(d))
    ensures Splits([d] + p, c, rest, quoted, [d] + a, b, q)
  {
    PartChar(d, p, quoted, a, q);
    SplitHead([d] + p, c, rest, 1);
    assert d in [d];
    assert [d] + (a + [c] + b) == [d] + a + [c] + b;
  }

  lemma {:induction false} EchoedSplit(p: string, c: char, rest: string, quoted: bool)
    returns (a: string, b: string, q: bool)
    requires Ordinary(c) && Echoed(p + [c] + rest, quoted).Line?
    ensures Splits(p, c, rest, quoted, a, b, q)
    decreases |p|
  {
    var text := p + [c] + rest;
    if p == [] {
      a, b, q := "", Echoed(rest, quoted).text, quoted;
      assert text[0] == c && text[1..] == rest;
      assert a + [c] + b == [c] + b;
    } else if p[0] == '$' {
      SplitHead(p, c, rest, 2);
      a, b, q := EchoedSplit(p[2..], c, rest, quoted);
      SplitsDollars(p[2..], c, rest, a, b, q);
      assert p == ['$', '$'] + p[2..];
      a := ['$'] + a;
    } else {
      SplitHead(p, c, rest, 1);
      assert p == [p[0]] + p[1..];
      if p[0] == '\'' {
        a, b, q := EchoedSplit(p[1..], c, rest, !quoted);
        SplitsQuote(p[1..], c, rest, quoted, a, b, q);
      } else {
        a, b, q := EchoedSplit(p[1..], c, rest, quoted);
        SplitsChar(p[0], p[1..], c, rest, quoted, a, b, q);
        a := [p[0]] + a;
      }
    }
  }

  lemma SplitHead(p: string, c: char, rest: string, n: nat)
    requires n <= |p|
    ensures (p + [c] + rest)[n..] == p[n..] + [c] + rest
  {
  }

  lemma OnePrint(line: string)
    ensures PrintAll([line]) == Print(line)
  {
    assert [line][1..] == [] && Print(line) + [] == Print(line);
  }

  lemma {:induction false} LookupDefines(world: World, vars: Vars, names: seq<string>, name: string)
    requires forall x :: x in names ==> Clean(x) && Plain(x + "." + Value(vars, x))
    ensures var lines := Defines(world, vars, names);
            lines.Some? && Lookup(lines.value, name) == if name in names then Meaning(Value(vars, name)) else None
  {
    if names == [] {
    } else {
      var line := names[0] + "." + Value(vars, names[0]);
      LookupDefines(world, vars, names[1..], name);
      PlainEchoed(line);
      OnePrint(line);
      LookupPrint(names[0], Value(vars, names[0]), name);
      LookupConcat(Print(line), Defines(world, vars, names[1..]).value, name);
    }
  }

  // ---------- The options of a list ----------

  const BLANKS := " \t\n"

  /** A longest stretch of `s` without a blank. */
  predicate WordAt(s: string, i: nat, j: nat) {
    && i < j <= |s| && (forall k :: i <= k < j ==> s[k] !in BLANKS)
    && (i == 0 || s[i - 1] in BLANKS) && (j == |s| || s[j] in BLANKS)
  }

  ghost predicate IsWord(s: string, w: string) {
    exists i: nat, j: nat :: WordAt(s, i, j) && s[i..j] == w
  }

  lemma OneWord(word: string, w: string)
    requires forall c :: c in word ==> c !in BLANKS
    ensures IsWord(word, w) <==> word != "" && w == word
  {
    if IsWord(word, w) {
      assert forall k :: 0 <= k < |word| ==> word[k] in word;
      var i: nat, j: nat :| WordAt(word, i, j) && word[i..j] == w;
    }
    if word != "" {
      assert word[0..|word|] == word && WordAt(word, 0, |word|);
    }
  }

  /** A blank ends a word. */
  lemma BlankEndsWord(word: string, b: char, rest: string, i: nat, j: nat)
    requires b in BLANKS && forall c :: c in word ==> c !in BLANKS
    requires WordAt(word + [b] + rest, i, j)
    ensures (i == 0 && j == |word|) || (i > |word| && WordAt(rest, i - |word| - 1, j - |word| - 1))
  {
    var s, n := word + [b] + rest, |word|;
    assert s[n] == b && s[n + 1..] == rest;
    assert forall k :: 0 <= k < n ==> s[k] == word[k] && word[k] in word;
    assert forall k :: n < k < |s| ==> s[k] == rest[k - n - 1];
  }

  /** The words behind a blank are found where they were. */
  lemma WordBehind(word: string, b: char, rest: string, i: nat, j: nat)
    requires b in BLANKS && WordAt(rest, i, j)
    ensures WordAt(word + [b] + rest, i + |word| + 1, j + |word| + 1)
  {
    var s, n := word + [b] + rest, |word| + 1;
    assert s[n - 1] == b && forall k :: n <= k < |s| ==> s[k] == rest[k - n];
  }

  lemma SliceBehind(word: string, b: char, rest: string, i: nat, j: nat)
    requires i <= j <= |rest|
    ensures (word + [b] + rest)[i + |word| + 1..j + |word| + 1] == rest[i..j]
  {
    assert (word + [b] + rest)[|word| + 1..] == rest;
  }

  lemma WordFirst(word: string, b: char, rest: string)
    requires b in BLANKS && word != "" && forall c :: c in word ==> c !in BLANKS
    ensures IsWord(word + [b] + rest, word)
  {
    var s, n := word + [b] + rest, |word|;
    assert s[n] == b && s[0..n] == word;
    assert forall k :: 0 <= k < n ==> s[k] == word[k] && word[k] in word;
    assert WordAt(s, 0, n);
  }

  lemma WordLater(word: string, b: char, rest: string, w: string)
    requires b in BLANKS && IsWord(rest, w)
    ensures IsWord(word + [b] + rest, w)
  {
    var i: nat, j: nat :| WordAt(rest, i, j) && rest[i..j] == w;
    WordBehind(word, b, rest, i, j);
    SliceBehind(word, b, rest, i, j);
  }

  lemma WordEither(word: string, b: char, rest: string, w: string)
    requires b in BLANKS && forall c :: c in word ==> c !in BLANKS
    requires IsWord(word + [b] + rest, w)
    ensures (word != "" && w == word) || IsWord(rest, w)
  {
    var s, n := word + [b] + rest, |word|;
    var i: nat, j: nat :| WordAt(s, i, j) && s[i..j] == w;
    BlankEndsWord(word, b, rest, i, j);
    if i == 0 {
      assert s[0..n] == word;
    } else {
      SliceBehind(word, b, rest, i - n - 1, j - n - 1);
    }
  }

  lemma WordsApart(word: string, b: char, rest: string, w: string)
    requires b in BLANKS && forall c :: c in word ==> c !in BLANKS
    ensures IsWord(word + [b] + rest, w) <==> (word != "" && w == word) || IsWord(rest, w)
  {
    if IsWord(word + [b] + rest, w) {
      WordEither(word, b, rest, w);
    }
    if IsWord(rest, w) {
      WordLater(word, b, rest, w);
    }
    if word != "" {
      WordFirst(word, b, rest);
    }
  }

  lemma {:induction false} WordsFromExactly(s: string, word: string, w: string)
    requires forall c :: c in word ==> c !in BLANKS
    ensures w in WordsFrom(s, word) <==> IsWord(word + s, w)
    decreases s
  {
    if s == [] {
      assert word + s == word;
      OneWord(word, w);
    } else if IsBlank(s[0]) {
      WordsFromExactly(s[1..], "", w);
      assert "" + s[1..] == s[1..];
      WordsApart(word, s[0], s[1..], w);
      assert word + [s[0]] + s[1..] == word + s;
    } else {
      WordsFromExactly(s[1..], word + [s[0]], w);
      assert word + [s[0]] + s[1..] == word + s;
    }
  }

  /** What Words finds are exactly the longest stretches without a blank. */
  lemma WordsExactly(s: string, w: string)
    ensures w in Words(s) <==> IsWord(s, w)
  {
    WordsFromExactly(s, "", w);
    assert "" + s == s;
  }

  /** A word gives option `x`: as it is, if it has no default or an empty one, or with its default cut off. */
  predicate Gives(word: string, x: string) {
    if '=' in x then word == x && x[|x| - 1] == '=' && '=' !in x[..|x| - 1]
    else x != "" && (word == x || (|x| + 1 < |word| && word[..|x| + 1] == x + "="))
  }

  /** Option `x` is in the list. */
  ghost predicate IsOption(options: string, x: string) {
    exists w :: IsWord(options, w) && Gives(w, x)
  }

  lemma IndexIs(s: string, c: char, i: nat)
    requires i < |s| && s[i] == c && c !in s[..i]
    ensures IndexOf(s, c) == i
  {
    IndexAfter(s[..i], c, s[i + 1..]);
    assert s == s[..i] + [c] + s[i + 1..];
  }

  lemma StripsTo(word: string, x: string)
    requires ' ' !in word && Gives(word, x)
    ensures word != "" && x != "" && StripDefault(word) == x
  {
    if '=' in x {
      IndexIs(word, '=', |x| - 1);
    } else if word == x {
      NoIndex(word, '=');
    } else {
      assert word[|x|] == word[..|x| + 1][|x|] && word[..|x|] == word[..|x| + 1][..|x|];
      IndexIs(word, '=', |x|);
    }
  }

  lemma StripGives(word: string)
    requires ' ' !in word && StripDefault(word) != ""
    ensures Gives(word, StripDefault(word))
  {
    var i := IndexOf(word, '=');
    if i == |word| {
      assert word[..i] == word;
    } else if i + 1 == |word| {
      assert word[|word| - 1] == '=' && '=' in word;
    } else {
      assert word[..i + 1] == word[..i] + "=";
    }
  }

  lemma {:induction false} NamesFrom(words: seq<string>, x: string)
    requires forall w :: w in words ==> ' ' !in w && w != ""
    ensures x in Names(words) <==> exists w :: w in words && Gives(w, x)
  {
    if words == [] {
    } else {
      NamesFrom(words[1..], x);
      assert words[0] in words && forall w :: w in words <==> w == words[0] || w in words[1..];
      if Gives(words[0], x) {
        StripsTo(words[0], x);
      }
      if StripDefault(words[0]) != "" {
        StripGives(words[0]);
      }
    }
  }

  lemma GivesPart(w: string, x: string)
    requires Gives(w, x) && ' ' !in w
    ensures ' ' !in x
  {
    if w != x && '=' !in x {
      assert forall k :: 0 <= k < |x| ==> w[..|x| + 1][k] == x[k] && w[k] == x[k];
    }
  }

  /** The names the recipe prints are exactly the options of the list. */
  lemma NamesExactly(options: string, x: string)
    ensures x in Names(Words(options)) <==> IsOption(options, x)
    ensures x in Names(Words(options)) ==> ' ' !in x
  {
    var words := Words(options);
    forall w ensures w in words <==> IsWord(options, w) {
      WordsExactly(options, w);
    }
    forall w | w in words ensures ' ' !in w && w != "" {
      WordNotBlank(options, w);
    }
    NamesFrom(words, x);
    if w :| w in words && Gives(w, x) {
      GivesPart(w, x);
    }
  }

  lemma WordNotBlank(s: string, w: string)
    requires IsWord(s, w)
    ensures ' ' !in w && w != ""
  {
    var i: nat, j: nat :| WordAt(s, i, j) && s[i..j] == w;
    assert forall k :: 0 <= k < |w| ==> w[k] == s[i + k];
  }

  lemma OptionsLookup(world: World, vars: Vars, options: string, name: string)
    requires forall x :: IsOption(options, x) ==> '.' !in x && Plain(x + "." + Value(vars, x))
    ensures var lines := Defines(world, vars, Names(Words(options)));
            lines.Some? &&
            Lookup(lines.value, name) == if IsOption(options, name) then Meaning(Value(vars, name)) else None
  {
    var names := Names(Words(options));
    forall x ensures x in names <==> IsOption(options, x) {
      NamesExactly(options, x);
    }
    forall x | x in names ensures Clean(x) {
      NamesExactly(options, x);
    }
    LookupDefines(world, vars, names, name);
  }

  /**
    For every option list whose names have no dot and whose texts neither make nor the shell
    changes: reading the header back gives, for each longest stretch of the list without a
    blank, its default cut off, 1 for y and m, nothing for n and for no value, and otherwise
    the value itself, dots and all; and the header defines nothing else but its guard.
  */
  lemma HeaderFaithful(world: World, vars: Vars, options: string, barrier: string, name: string)
    requires ' ' !in barrier && Listed(options).Some?
    requires forall x :: IsOption(options, x) ==> '.' !in x && Plain(x + "." + Value(vars, x))
    ensures var header := Header(world, vars, options, barrier);
            && header.Some?
            && Lookup(header.value, name) ==
               if IsOption(options, name) && Meaning(Value(vars, name)).Some? then Meaning(Value(vars, name))
               else if name == barrier then Some("") else None
    ensures var lines := Header(world, vars, options, barrier).value;
            && |lines| >= 3 && lines[0] == "#ifndef " + barrier && lines[1] == "#define " + barrier
            && lines[|lines| - 1] == "#endif /*" + barrier + "*/"
  {
    var head, tail := ["#ifndef " + barrier, "#define " + barrier], ["#endif /*" + barrier + "*/"];
    OptionsLookup(world, vars, options, name);
    var body := Defines(world, vars, Names(Words(options))).value;
    GuardDefines(barrier, name);
    LookupConcat(head, body, name);
    LookupConcat(head + body, tail, name);
  }

  lemma GuardDefines(barrier: string, name: string)
    requires ' ' !in barrier
    ensures Lookup(["#ifndef " + barrier, "#define " + barrier], name) == if name == barrier then Some("") else None
    ensures Lookup(["#endif /*" + barrier + "*/"], name) == None
  {
    var guard, define, end := "#ifndef " + barrier, "#define " + barrier, "#endif /*" + barrier + "*/";
    assert define[..8] == "#define " && define[8..] == barrier;
    NoIndex(barrier, ' ');
    assert Parse(define) == Some((barrier[..|barrier|], "")) && barrier[..|barrier|] == barrier;
    assert guard[1] == 'i' && end[1] == 'e';
    assert !DefinesName(guard, name) && !DefinesName(end, name);
    assert [guard, define][1..] == [define];
    assert Lookup([define], name) == if name == barrier then Some("") else None;
  }

  lemma {:induction false} NoIndex(s: string, c: char)
    requires c !in s
    ensures IndexOf(s, c) == |s|
  {
    if s == [] {
    } else {
      NoIndex(s[1..], c);
    }
  }

  // ---------- Exactly when an option is printed faithfully ----------

  lemma PrintDotted(p: string, tail: string)
    requires '.' !in p && '.' in tail
    ensures Print(p + ['.'] + tail) == ["#define " + p + " " + tail]
  {
    var line := p + ['.'] + tail;
    IndexAfter(p, '.', tail);
    assert line[..|p|] == p && line[|p| + 1..] == tail;
    assert tail != "n" && tail != "" && tail != "y" && tail != "m";
  }

  lemma {:induction false} HasIndex(s: string, c: char)
    requires c in s
    ensures IndexOf(s, c) < |s|
  {
    if s[0] == c {
    } else {
      HasIndex(s[1..], c);
    }
  }

  lemma LookupDotted(p: string, tail: string)
    requires Clean(p) && '.' in tail
    ensures Lookup(Print(p + ['.'] + tail), p).Some?
  {
    PrintDotted(p, tail);
    ParseDefine(p, tail);
    var line := "#define " + p + " " + tail;
    assert DefinesName(line, p);
    assert [line][1..] == [] && Lookup([], p) == None;
  }

  lemma SplitDot(x: string, value: string) returns (p: string, tail: string)
    requires '.' in x && ' ' !in x
    ensures Clean(p) && '.' in tail && IndexOf(x, '.') < |x| && p == x[..IndexOf(x, '.')]
    ensures x + "." + value == p + ['.'] + tail
  {
    HasIndex(x, '.');
    var i := IndexOf(x, '.');
    var rest := x[i + 1..];
    p, tail := x[..i], rest + ['.'] + value;
    assert tail[|rest|] == '.';
    assert x + "." + value == x + ['.'] + value;
  }

  /** A dot in the name always defines another name. */
  lemma DotDefinesAnother(x: string, value: string)
    requires '.' in x && ' ' !in x
    ensures var i := IndexOf(x, '.'); i < |x| && Lookup(Print(x + "." + value), x[..i]).Some?
  {
    var p, tail := SplitDot(x, value);
    LookupDotted(p, tail);
  }

  /** Reading back the lines of one option gives its meaning, and no other name. */
  ghost predicate Faithful(world: World, vars: Vars, x: string) {
    var lines := Defines(world, vars, [x]);
    && lines.Some?
    && forall name :: Lookup(lines.value, name) == if name == x then Meaning(Value(vars, x)) else None
  }

  function TextOf(vars: Vars, x: string): string {
    x + "." + Value(vars, x)
  }

  /** A caller's test: an option that is off only has to be echoed at all, one that is on unchanged. */
  predicate Printable(vars: Vars, x: string) {
    '.' !in x && if Meaning(Value(vars, x)).None? then Echoed(TextOf(vars, x), true).Line? else Plain(TextOf(vars, x))
  }

  lemma OneOption(world: World, vars: Vars, x: string)
    ensures Defines(world, vars, [x]) ==
            match Recipe(world, TextOf(vars, x)) case None => None case Some(lines) => Some(PrintAll(lines))
  {
    assert Defines(world, vars, [x][1..]) == Some([]);
    var lines := Recipe(world, TextOf(vars, x));
    assert lines.Some? ==> PrintAll(lines.value) + [] == PrintAll(lines.value);
  }

  /** What becomes of name and value when one line comes out. */
  lemma OneLine(world: World, vars: Vars, x: string) returns (a: string, b: string)
    requires ' ' !in x && Echoed(TextOf(vars, x), true).Line?
    ensures Defines(world, vars, [x]) == Some(Print(a + "." + b)) && ' ' !in a && ('.' in a <==> '.' in x)
    ensures var v := Value(vars, x);
            && |a| <= |x| && |b| <= |v| && (Plain(x) ==> a == x) && (Plain(x) && Plain(v) ==> b == v)
            && ('$' in x || '\'' in x ==> |a| < |x|) && ('$' in v || '\'' in v ==> |b| < |v|)
            && '\n' !in x + v && '\\' !in x + v && (Plain(v) ==> b == v)
  {
    var v, q := Value(vars, x), true;
    assert TextOf(vars, x) == x + ['.'] + v;
    a, b, q := EchoedSplit(x, '.', v, true);
    EchoedShorter(v, q);
    if Plain(v) {
      PlainEchoed(v);
    }
    OneOption(world, vars, x);
    OnePrint(a + "." + b);
    assert a + ['.'] + b == a + "." + b;
  }

  /** An option without a dot whose text is echoed: what any name reads as. */
  lemma UndottedReads(world: World, vars: Vars, x: string) returns (a: string, b: string)
    requires ' ' !in x && '.' !in x && Echoed(TextOf(vars, x), true).Line?
    ensures Defines(world, vars, [x]).Some?
    ensures forall name :: Lookup(Defines(world, vars, [x]).value, name) == if name == a then Meaning(b) else None
    ensures Plain(Value(vars, x)) ==> b == Value(vars, x)
    ensures Plain(x) ==> a == x
    ensures !Plain(x) ==> a != x
    ensures !Plain(Value(vars, x)) ==> b != Value(vars, x)
  {
    a, b := OneLine(world, vars, x);
    forall name ensures Lookup(Defines(world, vars, [x]).value, name) == if name == a then Meaning(b) else None {
      LookupPrint(a, b, name);
    }
  }

  lemma UndottedFaithful(world: World, vars: Vars, x: string)
    requires ' ' !in x && '.' !in x && Echoed(TextOf(vars, x), true).Line?
    ensures Faithful(world, vars, x) <==> Meaning(Value(vars, x)).None? || (Plain(x) && Plain(Value(vars, x)))
  {
    var v := Value(vars, x);
    var a, b := UndottedReads(world, vars, x);
    var lines := Defines(world, vars, [x]).value;
    assert Lookup(lines, x) == if x == a then Meaning(b) else None;
    if Meaning(v).None? {
      assert Plain(v);
    } else if !Plain(v) {
      assert Meaning(v) == Some(v);
    } else if !Plain(x) {
      assert Lookup(lines, x) == None;
    }
  }

  lemma DottedUnfaithful(world: World, vars: Vars, x: string)
    requires ' ' !in x && '.' in x && Echoed(TextOf(vars, x), true).Line?
    ensures !Faithful(world, vars, x)
  {
    var a, b := OneLine(world, vars, x);
    DotDefinesAnother(a, b);
    var other := a[..IndexOf(a, '.')];
    assert other != x;
    assert Lookup(Defines(world, vars, [x]).value, other).Some?;
  }

  lemma PlainText(vars: Vars, x: string)
    ensures Plain(TextOf(vars, x)) <==> Plain(x) && Plain(Value(vars, x))
  {
  }

  /** Wherever the outcome of the echo is known, printable options and only they are printed faithfully. */
  lemma FaithfulWhereKnown(world: World, vars: Vars, x: string)
    requires ' ' !in x && !Echoed(TextOf(vars, x), true).Unknown?
    ensures Faithful(world, vars, x) <==> Printable(vars, x)
  {
    PlainText(vars, x);
    PlainIff(TextOf(vars, x));
    OneOption(world, vars, x);
    if Echoed(TextOf(vars, x), true).Line? {
      if '.' in x {
        DottedUnfaithful(world, vars, x);
      } else {
        UndottedFaithful(world, vars, x);
      }
    }
  }

  /**
    For every option: its header is sure to define it and nothing else, whatever references,
    line ends, backslashes and special characters outside quotes lead to, exactly if the
    option is printable.
  */
  lemma FaithfulIff(vars: Vars, x: string)
    requires ' ' !in x
    ensures (forall world :: Faithful(world, vars, x)) <==> Printable(vars, x)
  {
    if Echoed(TextOf(vars, x), true).Unknown? {
      PlainIff(TextOf(vars, x));
      var broken: World := map[];
      OneOption(broken, vars, x);
      assert !Faithful(broken, vars, x);
    } else {
      forall world ensures Faithful(world, vars, x) <==> Printable(vars, x) {
        FaithfulWhereKnown(world, vars, x);
      }
      var some: World := map[];
      assert Faithful(some, vars, x) <==> Printable(vars, x);
    }
  }

  /** For one: a single quote in a value is a syntax error. */
  lemma QuoteFails(world: World)
    ensures Echoed("A.it's", true) == Fails && !Faithful(world, map["A" := "it's"], "A")
  {
    var t0 := "A.it's";
    assert t0[1..] == ".it's" && t0[2..] == "it's" && t0[3..] == "t's" && t0[4..] == "'s" && t0[5..] == "s";
    assert Echoed("s", false) == Fails && Echoed("'s", true) == Fails;
    assert "t's"[1..] == "'s" && Echoed("t's", true) == Fails;
    assert "it's"[1..] == "t's" && Echoed("it's", true) == Fails;
    assert ".it's"[1..] == "it's" && Echoed(".it's", true) == Fails;
    OneOption(world, map["A" := "it's"], "A");
    assert TextOf(map["A" := "it's"], "A") == "A.it's";
  }

  /** A default is stripped from its option exactly when it is not empty. */
  lemma DefaultStripped(name: string, default: string)
    requires '=' !in name && ' ' !in name && ' ' !in default
    ensures StripDefault(name) == name
    ensures StripDefault(name + "=" + default) == name <==> default != ""
  {
    var word := name + ['='] + default;
    assert word == name + "=" + default;
    IndexAfter(name, '=', default);
    assert word[..|name|] == name;
    if IndexOf(name, '=') < |name| {
      assert false;
    }
  }

  /** With an empty default the option is never printed, whatever its value. */
  lemma EmptyDefaultLost(world: World, vars: Vars, name: string)
    requires '=' !in name && Clean(name) && Plain(name) && name + "=" !in vars
    ensures var lines := Defines(world, vars, Names([name + "="])); lines.Some? && Lookup(lines.value, name) == None
  {
    DefaultStripped(name, "");
    assert name + "=" + "" == name + "=";
    assert Names([name + "="]) == [name + "="];
    assert name + "=" + "." + Value(vars, name + "=") == name + "=.";
    LookupDefines(world, vars, [name + "="], name);
  }
}
