/** Looking a command up by its keywords (ruby/cli/lib/cli/runner.rb). */
module CommandTree {
  import opened Wrappers
  import Text

  type Word = string

  datatype Command = Command(id: nat, usage: string)

  // ----- keywords ---------------------------------------------------------------------------

  predicate IsLetter(c: char) {
    'a' <= c <= 'z' || 'A' <= c <= 'Z'
  }

  /** The end of the run of (non-)space characters that begins the string. */
  function RunEnd(s: string, space: bool): (n: nat)
    ensures n <= |s|
  {
    if s != "" && Text.IsSpace(s[0]) == space then 1 + RunEnd(s[1..], space) else 0
  }

  /** `usage.split(/\s+/)`: leading space gives an empty first word. */
  function Words(usage: string): seq<Word>
    decreases |usage|
  {
    var n := RunEnd(usage, false);
    if n == |usage| then (if n == 0 then [] else [usage])
    else
      var rest := usage[n..];
      [usage[..n]] + Words(rest[RunEnd(rest, true)..])
  }

  function TakeKeywords(words: seq<Word>): seq<Word> {
    if words == [] || words[0] == "" || !IsLetter(words[0][0]) then []
    else [words[0]] + TakeKeywords(words[1..])
  }

  /** The words before the first that does not begin with a letter. */
  function Keywords(c: Command): seq<Word> {
    TakeKeywords(Words(c.usage))
  }

  /** The word begins with a letter, of either case. */
  predicate Wordy(w: Word) {
    w != "" && ('a' <= w[0] <= 'z' || 'A' <= w[0] <= 'Z')
  }

  /** Exactly the words before the first that does not begin with a letter. */
  lemma {:induction false} TakeKeywordsExactly(ws: seq<Word>, n: nat)
    requires n <= |ws| && (forall i :: 0 <= i < n ==> Wordy(ws[i])) && (n < |ws| ==> !Wordy(ws[n]))
    ensures TakeKeywords(ws) == ws[..n]
  {
    if n > 0 {
      TakeKeywordsExactly(ws[1..], n - 1);
    }
  }

  /** A text of words and what stands after each of them. */
  function Glue(words: seq<Word>, gaps: seq<string>): string
    requires |gaps| == |words|
  {
    if words == [] then "" else words[0] + gaps[0] + Glue(words[1..], gaps[1..])
  }

  /** Words without space, with space between them and perhaps after the last. */
  predicate Spaced(words: seq<Word>, gaps: seq<string>) {
    && |gaps| == |words|
    && (forall i :: 0 <= i < |words| ==> Solid(words[i]))
    && (forall i :: 0 <= i < |gaps| ==> Text.AllSpace(gaps[i]) && (i < |gaps| - 1 ==> gaps[i] != ""))
  }

  lemma {:induction false} RunEndAt(a: string, b: string, space: bool)
    requires forall i :: 0 <= i < |a| ==> Text.IsSpace(a[i]) == space
    requires b == "" || Text.IsSpace(b[0]) != space
    ensures RunEnd(a + b, space) == |a|
  {
    if a != "" {
      assert (a + b)[1..] == a[1..] + b;
      RunEndAt(a[1..], b, space);
    } else {
      assert a + b == b;
    }
  }

  predicate Solid(w: Word) {
    w != "" && forall j :: 0 <= j < |w| ==> !Text.IsSpace(w[j])
  }

  lemma WordsStep(w: Word, g: string, more: string)
    requires Solid(w) && Text.AllSpace(g) && (more == "" || (g != "" && !Text.IsSpace(more[0])))
    ensures Words(w + g + more) == [w] + Words(more)
  {
    var usage, rest := w + g + more, g + more;
    assert usage == w + rest;
    RunEndAt(w, rest, false);
    RunEndAt(g, more, true);
    assert usage[|w|..] == rest && usage[..|w|] == w && rest[|g|..] == more;
    if rest == "" {
      assert usage == w && Words(more) == [];
    }
  }

  /** Such words are read back, whatever the space. */
  lemma {:induction false} WordsOfGlue(words: seq<Word>, gaps: seq<string>)
    requires Spaced(words, gaps)
    ensures Words(Glue(words, gaps)) == words
  {
    if words != [] {
      var more := Glue(words[1..], gaps[1..]);
      WordsOfGlue(words[1..], gaps[1..]);
      assert more == "" || (gaps[0] != "" && !Text.IsSpace(more[0])) by {
        if |words| > 1 {
          assert Solid(words[1]) && more[0] == words[1][0];
        }
      }
      assert Solid(words[0]);
      WordsStep(words[0], gaps[0], more);
    }
  }

  /**
   * The keywords of a command: of a usage made of words with any space between them, the words
   * before the first that does not begin with a letter.
   */
  lemma KeywordsExactly(id: nat, words: seq<Word>, gaps: seq<string>, n: nat)
    requires Spaced(words, gaps) && n <= |words|
    requires (forall i :: 0 <= i < n ==> Wordy(words[i])) && (n < |words| ==> !Wordy(words[n]))
    ensures Keywords(Command(id, Glue(words, gaps))) == words[..n]
  {
    WordsOfGlue(words, gaps);
    TakeKeywordsExactly(words, n);
  }

  /** A usage that begins with space has no keywords. */
  lemma LeadingSpaceNoKeywords(id: nat, usage: string)
    requires usage != "" && Text.IsSpace(usage[0])
    ensures Keywords(Command(id, usage)) == []
  {
    assert Words(usage)[0] == "";
  }

  // ----- the reference: linear search -----------------------------------------------------------

  predicate Matches(c: Command, args: seq<Word>) {
    Keywords(c) != [] && Keywords(c) <= args
  }

  /** The matching command with the longest keyword list, the last registered among equals. */
  function Best(cs: seq<Command>, args: seq<Word>): (r: Option<Command>)
    ensures r.Some? ==> Matches(r.value, args)
  {
    if cs == [] then None
    else
      var b := Best(cs[..|cs| - 1], args);
      var c := cs[|cs| - 1];
      if Matches(c, args) && (b.None? || |Keywords(b.value)| <= |Keywords(c)|) then Some(c) else b
  }

  /** No matching command has more keywords, and none after it has as many. */
  predicate LastLongest(cs: seq<Command>, args: seq<Word>, k: nat)
    requires k < |cs|
  {
    forall i :: 0 <= i < |cs| && Matches(cs[i], args) ==>
      |Keywords(cs[i])| <= |Keywords(cs[k])| && (i > k ==> |Keywords(cs[i])| < |Keywords(cs[k])|)
  }

  lemma {:induction false} NoBestNoMatch(cs: seq<Command>, args: seq<Word>, i: nat)
    requires Best(cs, args).None? && i < |cs|
    ensures !Matches(cs[i], args)
  {
    if i < |cs| - 1 {
      NoBestNoMatch(cs[..|cs| - 1], args, i);
    }
  }

  /** `Best` is what its name says. */
  lemma {:induction false} BestIsBest(cs: seq<Command>, args: seq<Word>) returns (k: nat)
    requires Best(cs, args).Some?
    ensures k < |cs| && cs[k] == Best(cs, args).value && LastLongest(cs, args, k)
  {
    var n := |cs| - 1;
    var front, c := cs[..n], cs[n];
    var b := Best(front, args);
    assert forall i :: 0 <= i < n ==> cs[i] == front[i];
    if b.None? {
      k := n;
      forall i | 0 <= i < n
        ensures !Matches(cs[i], args)
      {
        NoBestNoMatch(front, args, i);
      }
    } else {
      k := BestIsBest(front, args);
      if Matches(c, args) && |Keywords(front[k])| <= |Keywords(c)| {
        k := n;
      }
    }
  }

  // ----- the tree ------------------------------------------------------------------------------------

  datatype Node = Node(children: map<Word, Node>, command: Option<Command>)

  const EmptyNode := Node(map[], None)

  function Child(node: Node, w: Word): Node {
    if w in node.children then node.children[w] else EmptyNode
  }

  /** Walk down the keywords, making nodes as needed, and put the command at the last. */
  function Insert(node: Node, keywords: seq<Word>, c: Command): Node
    decreases |keywords|
  {
    if keywords == [] then node.(command := Some(c))
    else node.(children := node.children[keywords[0] := Insert(Child(node, keywords[0]), keywords[1..], c)])
  }

  /** A command without keywords is put nowhere. */
  function Register(root: Node, c: Command): Node {
    if Keywords(c) == [] then root else Insert(root, Keywords(c), c)
  }

  function BuildTree(cs: seq<Command>): Node {
    if cs == [] then EmptyNode else Register(BuildTree(cs[..|cs| - 1]), cs[|cs| - 1])
  }

  /** The command at the node that the path leads to. */
  function At(node: Node, path: seq<Word>): Option<Command>
    decreases |path|
  {
    if path == [] then node.command
    else if path[0] in node.children then At(node.children[path[0]], path[1..])
    else None
  }

  lemma {:induction false} AtInsert(node: Node, keywords: seq<Word>, c: Command, path: seq<Word>)
    ensures At(Insert(node, keywords, c), path) == if path == keywords then Some(c) else At(node, path)
    decreases |keywords|
  {
    if keywords != [] && path != [] && keywords[0] == path[0] {
      AtInsert(Child(node, keywords[0]), keywords[1..], c, path[1..]);
      assert path == [path[0]] + path[1..] && keywords == [keywords[0]] + keywords[1..];
      if keywords[0] !in node.children {
        AtEmpty(path[1..]);
      }
    }
  }

  lemma AtEmpty(path: seq<Word>)
    ensures At(EmptyNode, path) == None
  {
  }

  /** The last command registered with exactly these keywords. */
  function LastWith(cs: seq<Command>, keywords: seq<Word>): Option<Command> {
    if cs == [] then None
    else if Keywords(cs[|cs| - 1]) == keywords then Some(cs[|cs| - 1])
    else LastWith(cs[..|cs| - 1], keywords)
  }

  lemma {:induction false} TreeHolds(cs: seq<Command>, path: seq<Word>)
    ensures At(BuildTree(cs), path) == if path == [] then None else LastWith(cs, path)
  {
    if cs == [] {
      AtEmpty(path);
    } else {
      var c := cs[|cs| - 1];
      TreeHolds(cs[..|cs| - 1], path);
      AtInsert(BuildTree(cs[..|cs| - 1]), Keywords(c), c, path);
    }
  }

  /** The length of the longest path into the arguments at which there is a command. */
  function Depth(node: Node, args: seq<Word>): Option<nat>
    decreases |args|
  {
    var deeper := if args != [] && args[0] in node.children then Depth(node.children[args[0]], args[1..]) else None;
    if deeper.Some? then Some(deeper.value + 1)
    else if node.command.Some? then Some(0)
    else None
  }

  lemma {:induction false} DepthIsLongest(node: Node, args: seq<Word>)
    ensures match Depth(node, args)
            case None => forall n :: 0 <= n <= |args| ==> At(node, args[..n]) == None
            case Some(d) => d <= |args| && At(node, args[..d]).Some? && forall n :: d < n <= |args| ==> At(node, args[..n]) == None
    decreases |args|
  {
    if args != [] {
      forall n | 1 <= n <= |args|
        ensures args[..n] != [] && args[..n][0] == args[0] && args[..n][1..] == args[1..][..n - 1]
      {
      }
      if args[0] in node.children {
        DepthIsLongest(node.children[args[0]], args[1..]);
      }
    }
  }

  /** The best match by linear search, in terms of keyword lists that are beginnings of the arguments. */
  lemma {:induction false} BestByPrefix(cs: seq<Command>, args: seq<Word>)
    ensures match Best(cs, args)
            case None => forall n :: 1 <= n <= |args| ==> LastWith(cs, args[..n]) == None
            case Some(b) =>
              && Matches(b, args) && LastWith(cs, Keywords(b)) == Some(b)
              && forall n :: |Keywords(b)| < n <= |args| ==> LastWith(cs, args[..n]) == None
  {
    if cs != [] {
      BestByPrefix(cs[..|cs| - 1], args);
      var kw := Keywords(cs[|cs| - 1]);
      forall n | 1 <= n <= |args|
        ensures kw == args[..n] <==> Matches(cs[|cs| - 1], args) && |kw| == n
      {
      }
    }
  }

  /** What the search returns: the command, and the arguments that are left. */
  function Found(node: Node, args: seq<Word>): (Option<Command>, seq<Word>) {
    DepthIsLongest(node, args);
    match Depth(node, args)
    case None => (None, args)
    case Some(d) => (At(node, args[..d]), args[d..])
  }

  /**
   * For any commands and arguments, the tree finds what linear search finds, the longest
   * keyword list that begins the arguments and the last command registered with it, and leaves
   * exactly the arguments after it; if none matches, all arguments are left.
   */
  lemma TreeIsLinearSearch(cs: seq<Command>, args: seq<Word>)
    ensures Found(BuildTree(cs), args) ==
              match Best(cs, args)
              case None => (None, args)
              case Some(b) => (Some(b), args[|Keywords(b)|..])
  {
    var tree := BuildTree(cs);
    BestByPrefix(cs, args);
    DepthIsLongest(tree, args);
    TreeHolds(cs, []);
    forall n | 1 <= n <= |args|
      ensures At(tree, args[..n]) == LastWith(cs, args[..n])
    {
      TreeHolds(cs, args[..n]);
    }
    var b, d := Best(cs, args), Depth(tree, args);
    if b.Some? {
      var n := |Keywords(b.value)|;
      assert Keywords(b.value) == args[..n] && At(tree, args[..n]) == Some(b.value);
      assert d.Some? && d.value == n;
    } else {
      assert args[..0] == [];
    }
  }

  class Runner {
    var args: seq<Word>
    var parseTree: Node

    constructor (args: seq<Word>)
      ensures this.args == args && parseTree == EmptyNode
    {
      this.args, parseTree := args, EmptyNode;
    }

    method BuildParseTree(commands: seq<Command>)
      modifies this`parseTree
      ensures parseTree == BuildTree(commands)
    {
      parseTree := EmptyNode;
      for i := 0 to |commands|
        invariant parseTree == BuildTree(commands[..i])
      {
        assert commands[..i + 1][..i] == commands[..i];
        parseTree := Register(parseTree, commands[i]);
      }
      assert commands[..|commands|] == commands;
    }

    /** The recursive search, which takes arguments off the front and puts back what it did not use. */
    method FindCommand(node: Option<Node>) returns (command: Option<Command>)
      modifies this`args
      ensures node.None? ==> command == None && args == old(args)
      ensures node.Some? ==> (command, args) == Found(node.value, old(args))
      decreases if node.None? then 0 else 1 + |args|
    {
      if node.None? {
        return None;
      }
      ghost var all := args;
      DepthIsLongest(node.value, all);
      var arg: Option<Word> := None;
      if args != [] {
        arg, args := Some(args[0]), args[1..];
      }
      var child := if arg.Some? && arg.value in node.value.children
                   then Some(node.value.children[arg.value]) else None;
      var longer := FindCommand(child);
      if longer.Some? {
        DepthIsLongest(child.value, all[1..]);
        var d := Depth(child.value, all[1..]).value;
        assert all[..d + 1][1..] == all[1..][..d] && all[1..][d..] == all[d + 1..];
        command := longer;
      } else {
        if child.Some? {
          DepthIsLongest(child.value, all[1..]);
        }
        if arg.Some? {
          args := [arg.value] + args;
        }
        assert args == all && all[..0] == [] && all[0..] == all;
        command := node.value.command;
      }
    }

    /** The lookup of `run`, up to running the command. */
    method Lookup(commands: seq<Command>) returns (command: Option<Command>)
      modifies this
      ensures command == Best(commands, old(args))
      ensures args == if command.Some? then old(args)[|Keywords(command.value)|..] else old(args)
    {
      BuildParseTree(commands);
      TreeIsLinearSearch(commands, args);
      command := FindCommand(Some(parseTree));
    }
  }
}
