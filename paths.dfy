/**
 * `getRelativeFileHandle`: a path string relative to a document is split on
 * both separators and folded, token by token, over the document's directory.
 * A file handle is modelled by its list of path segments.
 */
module Paths {

  /** A file handle's path: absolute or not, and its segments in order. */
  datatype FilePath = FilePath(absolute: bool, segments: seq<string>)

  /** `FileHandle.parent`: the last segment dropped; the root (or the empty relative path) is its own parent. */
  function Parent(p: FilePath): (q: FilePath)
    ensures q.absolute == p.absolute
    ensures |q.segments| == if p.segments == [] then 0 else |p.segments| - 1
    ensures q.segments <= p.segments
  {
    if p.segments == [] then p else FilePath(p.absolute, p.segments[..|p.segments| - 1])
  }

  /** `FileHandle.child`: one more segment. */
  function Child(p: FilePath, name: string): FilePath {
    FilePath(p.absolute, p.segments + [name])
  }

  /** The two delimiters given to the tokenizer: `\` and `/`. */
  predicate IsSeparator(c: char) {
    c == '/' || c == '\\'
  }

  /** What the tokenizer can return: a non-empty run of non-separators. */
  predicate IsToken(t: string) {
    t != [] && forall i :: 0 <= i < |t| ==> !IsSeparator(t[i])
  }

  /** The length of the token that starts `s`: it runs up to the next separator. */
  function TokenLength(s: string): (n: nat)
    requires s != [] && !IsSeparator(s[0])
    ensures 1 <= n <= |s|
    ensures IsToken(s[..n])
    ensures n < |s| ==> IsSeparator(s[n])
    decreases |s|
  {
    if |s| == 1 || IsSeparator(s[1]) then 1 else 1 + TokenLength(s[1..])
  }

  /** `StringTokenizer(path, "\\/")`: the maximal runs of non-separators, in order; empty runs never appear. */
  function Tokens(s: string): (toks: seq<string>)
    ensures forall k :: 0 <= k < |toks| ==> IsToken(toks[k])
    decreases |s|
  {
    if s == [] then []
    else if IsSeparator(s[0]) then Tokens(s[1..])
    else
      var n := TokenLength(s);
      [s[..n]] + Tokens(s[n..])
  }

  /** One token: `..` goes to the parent, anything else (`.` included) is appended. */
  function Step(p: FilePath, token: string): FilePath {
    if token == ".." then Parent(p) else Child(p, token)
  }

  /** The tokenizer loop: each token applied in order. */
  function Fold(p: FilePath, tokens: seq<string>): FilePath
    decreases |tokens|
  {
    if tokens == [] then p else Fold(Step(p, tokens[0]), tokens[1..])
  }

  /** `getRelativeFileHandle(file, path)`: resolution starts at the parent of `file`. */
  function RelativeFileHandle(file: FilePath, path: string): FilePath {
    Fold(Parent(file), Tokens(path))
  }

  // ---------------------------------------------------------------------
  // Properties

  /** Entering a directory and leaving it with `..` is no move at all. */
  lemma ChildThenUp(p: FilePath, name: string)
    requires name != ".."
    ensures Fold(p, [name, ".."]) == p
  {
    assert [name, ".."][1..] == [".."];
    assert Fold(p, [name, ".."]) == Fold(Child(p, name), [".."]);
    assert Fold(Child(p, name), [".."]) == Fold(Parent(Child(p, name)), []);
    assert Child(p, name).segments[..|p.segments|] == p.segments;
  }

  /** `..` at the root stays at the root. */
  lemma UpAtRoot(absolute: bool, tokens: seq<string>)
    requires forall k :: 0 <= k < |tokens| ==> tokens[k] == ".."
    ensures Fold(FilePath(absolute, []), tokens) == FilePath(absolute, [])
    decreases |tokens|
  {
    if tokens != [] {
      UpAtRoot(absolute, tokens[1..]);
    }
  }

  /** Applying two token lists one after the other is applying their concatenation. */
  lemma {:induction false} FoldAppend(p: FilePath, a: seq<string>, b: seq<string>)
    ensures Fold(p, a + b) == Fold(Fold(p, a), b)
    decreases |a|
  {
    if a != [] {
      assert (a + b)[1..] == a[1..] + b;
      FoldAppend(Step(p, a[0]), a[1..], b);
    } else {
      assert a + b == b;
    }
  }

  /** Without `..`, resolution appends every token to the directory of the base. */
  lemma {:induction false} FoldWithoutUp(p: FilePath, tokens: seq<string>)
    requires forall k :: 0 <= k < |tokens| ==> tokens[k] != ".."
    ensures Fold(p, tokens) == FilePath(p.absolute, p.segments + tokens)
    decreases |tokens|
  {
    if tokens != [] {
      FoldWithoutUp(Child(p, tokens[0]), tokens[1..]);
      assert p.segments + [tokens[0]] + tokens[1..] == p.segments + tokens;
    }
  }

  /** `s` with every `\` written as `/`. */
  function WithSlashes(s: string): (r: string)
    ensures |r| == |s|
  {
    seq(|s|, i requires 0 <= i < |s| => if s[i] == '\\' then '/' else s[i])
  }

  lemma {:induction false} TokenLengthWithSlashes(s: string)
    requires s != [] && !IsSeparator(s[0])
    ensures WithSlashes(s) != [] && !IsSeparator(WithSlashes(s)[0])
    ensures TokenLength(WithSlashes(s)) == TokenLength(s)
    decreases |s|
  {
    if |s| > 1 && !IsSeparator(s[1]) {
      assert WithSlashes(s)[1..] == WithSlashes(s[1..]);
      TokenLengthWithSlashes(s[1..]);
    }
  }

  /** The two separators are interchangeable: writing every `\` as `/` changes no token. */
  lemma {:induction false} SeparatorsEquivalent(s: string)
    ensures Tokens(WithSlashes(s)) == Tokens(s)
    decreases |s|
  {
    var w := WithSlashes(s);
    if s != [] {
      if IsSeparator(s[0]) {
        assert w[1..] == WithSlashes(s[1..]);
        SeparatorsEquivalent(s[1..]);
      } else {
        TokenLengthWithSlashes(s);
        var n := TokenLength(s);
        assert w[..n] == s[..n];
        assert w[n..] == WithSlashes(s[n..]);
        SeparatorsEquivalent(s[n..]);
      }
    }
  }

  /** A token stops at the first separator after it, whatever follows. */
  lemma {:induction false} TokenLengthBeforeSeparator(s: string, rest: string)
    requires s != [] && !IsSeparator(s[0])
    requires rest != [] && IsSeparator(rest[0])
    ensures TokenLength(s + rest) == TokenLength(s)
    decreases |s|
  {
    if |s| > 1 && !IsSeparator(s[1]) {
      assert (s + rest)[1..] == s[1..] + rest;
      TokenLengthBeforeSeparator(s[1..], rest);
    }
  }

  /**
   * A separator splits the tokens: those before it, then those after it.
   * With `a` or `b` empty, or `c` next to another separator, this is the
   * tokenizer skipping leading, trailing and doubled separators.
   */
  lemma {:induction false} TokensAtSeparator(a: string, c: char, b: string)
    requires IsSeparator(c)
    ensures Tokens(a + [c] + b) == Tokens(a) + Tokens(b)
    decreases |a|
  {
    var s := a + [c] + b;
    if a == [] {
      assert s[1..] == b;
    } else if IsSeparator(a[0]) {
      assert s[1..] == a[1..] + [c] + b;
      TokensAtSeparator(a[1..], c, b);
    } else {
      TokenLengthBeforeSeparator(a, [c] + b);
      assert s == a + ([c] + b);
      var n := TokenLength(a);
      assert s[..n] == a[..n];
      assert s[n..] == a[n..] + [c] + b;
      TokensAtSeparator(a[n..], c, b);
    }
  }

  /** The path string that joins tokens with `/`. */
  function Join(tokens: seq<string>): string
    decreases |tokens|
  {
    if tokens == [] then ""
    else if |tokens| == 1 then tokens[0]
    else tokens[0] + "/" + Join(tokens[1..])
  }

  lemma {:induction false} TokenLengthOfToken(t: string, rest: string)
    requires IsToken(t)
    requires rest == [] || IsSeparator(rest[0])
    ensures TokenLength(t + rest) == |t|
    decreases |t|
  {
    if |t| > 1 {
      assert (t + rest)[1..] == t[1..] + rest;
      TokenLengthOfToken(t[1..], rest);
    }
  }

  /** Splitting a `/`-joined list of tokens gives the list back. */
  lemma {:induction false} TokensOfJoin(tokens: seq<string>)
    requires forall k :: 0 <= k < |tokens| ==> IsToken(tokens[k])
    ensures Tokens(Join(tokens)) == tokens
    decreases |tokens|
  {
    if tokens != [] {
      var t := tokens[0];
      if |tokens| == 1 {
        TokenLengthOfToken(t, "");
        assert t + "" == t;
        assert t[|t|..] == [];
      } else {
        var rest := "/" + Join(tokens[1..]);
        TokenLengthOfToken(t, rest);
        assert Join(tokens) == t + rest;
        assert (t + rest)[..|t|] == t;
        assert (t + rest)[|t|..] == rest;
        assert rest[1..] == Join(tokens[1..]);
        TokensOfJoin(tokens[1..]);
      }
    }
  }

  lemma ExampleJoin()
    ensures WithSlashes("..\\tiles/./grass.png") == Join(["..", "tiles", ".", "grass.png"])
  {
  }

  lemma ExampleTokensAreTokens()
    ensures var tokens := ["..", "tiles", ".", "grass.png"];
      forall k :: 0 <= k < |tokens| ==> IsToken(tokens[k])
  {
    assert IsToken("..") && IsToken("tiles") && IsToken(".") && IsToken("grass.png");
  }

  lemma ExampleTokens()
    ensures Tokens("..\\tiles/./grass.png") == ["..", "tiles", ".", "grass.png"]
  {
    ExampleTokensAreTokens();
    TokensOfJoin(["..", "tiles", ".", "grass.png"]);
    ExampleJoin();
    SeparatorsEquivalent("..\\tiles/./grass.png");
  }

  lemma ExampleDescent()
    ensures Fold(FilePath(false, []), ["tiles", ".", "grass.png"]) == FilePath(false, ["tiles", ".", "grass.png"])
  {
    var down := ["tiles", ".", "grass.png"];
    assert |down[0]| == 5 && |down[1]| == 1 && |down[2]| == 9;
    FoldWithoutUp(FilePath(false, []), down);
  }

  /** A tileset image beside the map, reached through `..` and a backslash. */
  lemma ResolveExample()
    ensures RelativeFileHandle(FilePath(false, ["maps", "level.tmj"]), "..\\tiles/./grass.png")
         == FilePath(false, ["tiles", ".", "grass.png"])
  {
    ExampleTokens();
    var down := ["tiles", ".", "grass.png"];
    var dir := FilePath(false, ["maps"]);
    assert Parent(FilePath(false, ["maps", "level.tmj"])) == dir;
    FoldAppend(dir, [".."], down);
    assert [".."] + down == ["..", "tiles", ".", "grass.png"];
    assert [".."][1..] == [];
    assert Fold(dir, [".."]) == FilePath(false, []);
    ExampleDescent();
    assert RelativeFileHandle(FilePath(false, ["maps", "level.tmj"]), "..\\tiles/./grass.png")
        == Fold(dir, [".."] + down);
  }
}
