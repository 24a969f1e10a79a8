/**
 * How a text command is read: `content.slice(prefix.length).trim().split(/ +/)`,
 * the first piece lower-cased as the command name, the rest as arguments.
 */
module CommandParser {
  import opened Text

  /** The characters JavaScript's `String.prototype.trim` removes: WhiteSpace and LineTerminator. */
  predicate IsJsWhitespace(c: char) {
    || c == '\U{0009}' || c == '\U{000B}' || c == '\U{000C}' || c == '\U{0020}' || c == '\U{00A0}'
    || c == '\U{FEFF}' || c == '\U{1680}' || ('\U{2000}' <= c <= '\U{200A}') || c == '\U{202F}'
    || c == '\U{205F}' || c == '\U{3000}'
    || c == '\U{000A}' || c == '\U{000D}' || c == '\U{2028}' || c == '\U{2029}'
  }

  predicate AllWhitespace(s: string) {
    forall i :: 0 <= i < |s| ==> IsJsWhitespace(s[i])
  }

  /** Number of whitespace characters at the start of `s`. */
  function LeadingWhitespace(s: string): (k: nat)
    ensures k <= |s|
    ensures AllWhitespace(s[..k])
    ensures k < |s| ==> !IsJsWhitespace(s[k])
  {
    if s == [] || !IsJsWhitespace(s[0]) then 0
    else
      var k := 1 + LeadingWhitespace(s[1..]);
      assert s[..k] == [s[0]] + s[1..][..k - 1];
      k
  }

  /** Length of `s` without its trailing whitespace. */
  function TrailingWhitespaceStart(s: string): (k: nat)
    ensures k <= |s|
    ensures AllWhitespace(s[k..])
    ensures k > 0 ==> !IsJsWhitespace(s[k - 1])
  {
    if s == [] || !IsJsWhitespace(s[|s| - 1]) then |s|
    else
      var k := TrailingWhitespaceStart(s[..|s| - 1]);
      assert s[k..] == s[..|s| - 1][k..] + [s[|s| - 1]];
      k
  }

  /** `r` is `s` with a whitespace-only head of length `i` and a whitespace-only tail cut off. */
  predicate TrimmedAt(s: string, i: nat, r: string) {
    i + |r| <= |s| && r == s[i..i + |r|] && AllWhitespace(s[..i]) && AllWhitespace(s[i + |r|..])
  }

  /** `s.trim()`: the one piece of `s` that is cut out of whitespace and neither starts nor ends with it. */
  function Trim(s: string): (r: string)
    ensures exists i: nat :: TrimmedAt(s, i, r)
    ensures r != [] ==> !IsJsWhitespace(r[0]) && !IsJsWhitespace(r[|r| - 1])
  {
    var i := LeadingWhitespace(s);
    var t := s[i..];
    var j := TrailingWhitespaceStart(t);
    assert s[i + j..] == t[j..];
    assert TrimmedAt(s, i, t[..j]);
    t[..j]
  }

  /** Length of the run of spaces `s` starts with. */
  function SpaceRun(s: string): (k: nat)
    ensures k <= |s|
    ensures forall i :: 0 <= i < k ==> s[i] == ' '
    ensures k < |s| ==> s[k] != ' '
  {
    if s == [] || s[0] != ' ' then 0 else 1 + SpaceRun(s[1..])
  }

  /**
   * `s.split(/ +/)`: the pieces between maximal runs of spaces (U+0020 only),
   * with an empty first or last piece when `s` starts or ends with a space.
   */
  function SplitSpaces(s: string): (tokens: seq<string>)
    ensures |tokens| >= 1
    ensures forall t :: 0 <= t < |tokens| ==> ' ' !in tokens[t]
    decreases |s|
  {
    var k := IndexOf(s, ' ');
    if k == |s| then [s]
    else
      var j := k + SpaceRun(s[k..]);
      [s[..k]] + SplitSpaces(s[j..])
  }

  /** `tokens.join(' ')`. */
  function JoinSpaces(tokens: seq<string>): string {
    if tokens == [] then ""
    else if |tokens| == 1 then tokens[0]
    else tokens[0] + " " + JoinSpaces(tokens[1..])
  }

  /** On text that neither starts nor ends with a space, no piece is empty. */
  lemma {:induction false} SplitTrimmedHasNoEmptyToken(s: string)
    requires s != [] && s[0] != ' ' && s[|s| - 1] != ' '
    ensures forall t :: 0 <= t < |SplitSpaces(s)| ==> SplitSpaces(s)[t] != ""
    decreases |s|
  {
    var k := IndexOf(s, ' ');
    if k < |s| {
      var j := k + SpaceRun(s[k..]);
      assert s[k..][|s| - 1 - k] == s[|s| - 1];
      var rest := s[j..];
      assert rest[0] == s[j] && rest[|rest| - 1] == s[|s| - 1];
      SplitTrimmedHasNoEmptyToken(rest);
      assert SplitSpaces(s) == [s[..k]] + SplitSpaces(rest);
    }
  }

  lemma SpaceIndexAfter(a: string, b: string)
    requires ' ' !in a && (b == [] || b[0] == ' ')
    ensures IndexOf(a + b, ' ') == |a|
  {
    var s := a + b;
    assert forall i :: 0 <= i < |a| ==> s[i] == a[i] && a[i] != ' ';
    if b != [] { assert s[|a|] == b[0]; }
  }

  /** A run of spaces followed by a non-space (or nothing) is measured in full. */
  lemma SpaceRunOf(run: string, b: string)
    requires forall i :: 0 <= i < |run| ==> run[i] == ' '
    requires b == [] || b[0] != ' '
    ensures SpaceRun(run + b) == |run|
  {
    var s := run + b;
    assert forall i :: 0 <= i < |run| ==> s[i] == run[i];
    if b != [] { assert s[|run|] == b[0]; }
  }

  /**
   * A run of one or more spaces is a single separator, the `+` of `/ +/`:
   * a space-free word, then the run, then text not starting with a space,
   * splits into the word followed by the pieces of that text.
   */
  lemma SplitAtRun(word: string, run: string, b: string)
    requires ' ' !in word
    requires |run| >= 1 && forall i :: 0 <= i < |run| ==> run[i] == ' '
    requires b == [] || b[0] != ' '
    ensures SplitSpaces(word + run + b) == [word] + SplitSpaces(b)
  {
    var s := word + run + b;
    assert s == word + (run + b);
    assert (run + b)[0] == run[0];
    SpaceIndexAfter(word, run + b);
    var k := |word|;
    assert s[k..] == run + b;
    SpaceRunOf(run, b);
    assert s[..k] == word;
    assert s[k + |run|..] == b;
  }

  /** Splitting undoes joining with single spaces, for non-empty pieces without spaces. */
  lemma {:induction false} SplitJoinRoundTrip(tokens: seq<string>)
    requires |tokens| >= 1
    requires forall t :: 0 <= t < |tokens| ==> tokens[t] != "" && ' ' !in tokens[t]
    ensures SplitSpaces(JoinSpaces(tokens)) == tokens
    decreases |tokens|
  {
    var s := JoinSpaces(tokens);
    if |tokens| == 1 {
      SpaceIndexAfter(tokens[0], []);
      assert tokens[0] + [] == tokens[0];
    } else {
      var rest := JoinSpaces(tokens[1..]);
      JoinSpacesStart(tokens[1..]);
      assert s == tokens[0] + (" " + rest);
      SpaceIndexAfter(tokens[0], " " + rest);
      var k := |tokens[0]|;
      assert s[k..] == " " + rest;
      SpaceRunOf(" ", rest);
      assert s[..k] == tokens[0];
      assert s[k + 1..] == rest;
      SplitJoinRoundTrip(tokens[1..]);
    }
  }

  /** Joined non-empty space-free pieces start with a non-space. */
  lemma JoinSpacesStart(tokens: seq<string>)
    requires |tokens| >= 1
    requires forall t :: 0 <= t < |tokens| ==> tokens[t] != "" && ' ' !in tokens[t]
    ensures JoinSpaces(tokens) != [] && JoinSpaces(tokens)[0] == tokens[0][0]
  {
    if |tokens| > 1 {
      assert JoinSpaces(tokens) == tokens[0] + " " + JoinSpaces(tokens[1..]);
    }
  }

  /** `s` with every space removed. */
  function RemoveSpaces(s: string): (r: string)
    ensures ' ' !in r
    ensures |r| <= |s|
  {
    if s == [] then [] else (if s[0] == ' ' then [] else [s[0]]) + RemoveSpaces(s[1..])
  }

  function Concat(tokens: seq<string>): string {
    if tokens == [] then [] else tokens[0] + Concat(tokens[1..])
  }

  lemma {:induction false} RemoveSpacesAppend(a: string, b: string)
    ensures RemoveSpaces(a + b) == RemoveSpaces(a) + RemoveSpaces(b)
    decreases |a|
  {
    if a == [] {
      assert a + b == b;
    } else {
      var head := if a[0] == ' ' then [] else [a[0]];
      assert (a + b)[0] == a[0];
      assert (a + b)[1..] == a[1..] + b;
      assert RemoveSpaces(a + b) == head + RemoveSpaces(a[1..] + b);
      RemoveSpacesAppend(a[1..], b);
    }
  }

  lemma {:induction false} RemoveSpacesOfSpaces(s: string)
    requires forall i :: 0 <= i < |s| ==> s[i] == ' '
    ensures RemoveSpaces(s) == []
    decreases |s|
  {
    if s != [] { RemoveSpacesOfSpaces(s[1..]); }
  }

  lemma {:induction false} RemoveSpacesOfWord(s: string)
    requires ' ' !in s
    ensures RemoveSpaces(s) == s
    decreases |s|
  {
    if s != [] {
      RemoveSpacesOfWord(s[1..]);
      assert s == [s[0]] + s[1..];
    }
  }

  lemma RemoveSpacesOfParts(word: string, run: string, rest: string)
    requires ' ' !in word
    requires forall i :: 0 <= i < |run| ==> run[i] == ' '
    ensures RemoveSpaces(word + run + rest) == word + RemoveSpaces(rest)
  {
    var head := word + run;
    RemoveSpacesAppend(head, rest);
    RemoveSpacesAppend(word, run);
    RemoveSpacesOfSpaces(run);
    RemoveSpacesOfWord(word);
    assert RemoveSpaces(head) == word;
  }

  /** A space-free head followed by spaces: removing spaces keeps the head and goes on after the spaces. */
  lemma RemoveSpacesAfterRun(s: string, k: nat, j: nat)
    requires k <= j <= |s|
    requires forall i :: 0 <= i < k ==> s[i] != ' '
    requires forall i :: k <= i < j ==> s[i] == ' '
    ensures RemoveSpaces(s) == s[..k] + RemoveSpaces(s[j..])
  {
    var word, run, rest := s[..k], s[k..j], s[j..];
    assert s == word + run + rest;
    RemoveSpacesOfParts(word, run, rest);
  }

  /** Splitting loses nothing but the spaces: the pieces, run together, are the text without its spaces. */
  lemma {:induction false} SplitKeepsContent(s: string)
    ensures Concat(SplitSpaces(s)) == RemoveSpaces(s)
    decreases |s|
  {
    var k := IndexOf(s, ' ');
    if k == |s| {
      RemoveSpacesOfWord(s);
      assert Concat([s]) == s + Concat([]);
    } else {
      var j := k + SpaceRun(s[k..]);
      assert forall i :: k <= i < j ==> s[i] == s[k..][i - k];
      RemoveSpacesAfterRun(s, k, j);
      SplitKeepsContent(s[j..]);
      var tokens := SplitSpaces(s);
      assert tokens == [s[..k]] + SplitSpaces(s[j..]);
      assert tokens[1..] == SplitSpaces(s[j..]);
      assert Concat(tokens) == tokens[0] + Concat(tokens[1..]);
    }
  }

  /** `toLowerCase` on one character, for the ASCII letters. */
  function LowerChar(c: char): char {
    if 'A' <= c <= 'Z' then (c as int + 32) as char else c
  }

  /** `s.toLowerCase()` on ASCII text: A-Z become a-z, every other character stays. */
  function ToLower(s: string): (r: string)
    ensures |r| == |s|
    ensures forall i :: 0 <= i < |s| ==> r[i] == LowerChar(s[i])
    ensures forall i :: 0 <= i < |r| ==> !('A' <= r[i] <= 'Z')
    ensures ' ' !in s ==> ' ' !in r
  {
    seq(|s|, i requires 0 <= i < |s| => LowerChar(s[i]))
  }

  /** The pieces of trimmed text: `[""]` for empty text, otherwise none empty. */
  lemma TokensOfTrimmed(trimmed: string)
    requires trimmed != [] ==> !IsJsWhitespace(trimmed[0]) && !IsJsWhitespace(trimmed[|trimmed| - 1])
    ensures trimmed == [] ==> SplitSpaces(trimmed) == [[]]
    ensures trimmed != [] ==> forall t :: 0 <= t < |SplitSpaces(trimmed)| ==> SplitSpaces(trimmed)[t] != []
  {
    if trimmed != [] {
      SplitTrimmedHasNoEmptyToken(trimmed);
    }
  }

  datatype ParsedCommand = ParsedCommand(name: string, args: seq<string>)

  /**
   * The command name and arguments read from the text after the prefix: the
   * first piece of the trimmed text split on runs of spaces, lower-cased,
   * and the remaining pieces in order.
   */
  function ParseCommand(afterPrefix: string): (p: ParsedCommand)
    ensures ' ' !in p.name
    ensures forall i :: 0 <= i < |p.name| ==> !('A' <= p.name[i] <= 'Z')
    ensures p.name == "" <==> Trim(afterPrefix) == ""
    ensures Trim(afterPrefix) == "" ==> p.args == []
    ensures forall i :: 0 <= i < |p.args| ==> p.args[i] != "" && ' ' !in p.args[i]
    ensures exists word :: ToLower(word) == p.name && SplitSpaces(Trim(afterPrefix)) == [word] + p.args
  {
    var trimmed := Trim(afterPrefix);
    var tokens := SplitSpaces(trimmed);
    TokensOfTrimmed(trimmed);
    var word, args := tokens[0], tokens[1..];
    assert tokens == [word] + args;
    assert word == "" <==> trimmed == "";
    ParsedCommand(ToLower(word), args)
  }
}
