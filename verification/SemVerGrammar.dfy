// The version grammar of the public status document, and its round trip between
// text and parts.
module SemVerGrammar {
  import opened Wrappers

  predicate Digit(c: char) {
    '0' <= c <= '9'
  }

  predicate IdentChar(c: char) {
    Digit(c) || 'A' <= c <= 'Z' || 'a' <= c <= 'z' || c == '-'
  }

  predicate AllDigits(s: string) {
    forall c <- s :: Digit(c)
  }

  // 0|[1-9][0-9]{0,14}
  predicate NumericIdent(s: string) {
    1 <= |s| <= 15 && AllDigits(s) && (s[0] == '0' ==> |s| == 1)
  }

  // [0-9]*[A-Za-z-][0-9A-Za-z-]*
  predicate AlphaIdent(s: string) {
    (forall c <- s :: IdentChar(c)) && !AllDigits(s)
  }

  predicate PreIdent(s: string) {
    NumericIdent(s) || AlphaIdent(s)
  }

  predicate BuildIdent(s: string) {
    s != "" && forall c <- s :: IdentChar(c)
  }

  // The three core numbers, the prerelease identifiers and the build identifiers.
  datatype Version = Version(core: seq<string>, pre: Option<seq<string>>, build: Option<seq<string>>)

  predicate WellFormed(v: Version) {
    && |v.core| == 3 && (forall s <- v.core :: NumericIdent(s))
    && (v.pre.Some? ==> v.pre.value != [] && forall s <- v.pre.value :: PreIdent(s))
    && (v.build.Some? ==> v.build.value != [] && forall s <- v.build.value :: BuildIdent(s))
  }

  // --- Splitting and joining -----------------------------------------------

  function Split(s: string, sep: char): (parts: seq<string>)
    ensures parts != []
  {
    var i := IndexOf(s, sep);
    if i == |s| then [s] else [s[..i]] + Split(s[i + 1..], sep)
  }

  function IndexOf(s: string, c: char): (i: nat)
    ensures i <= |s| && c !in s[..i] && (i < |s| ==> s[i] == c)
  {
    if s == "" || s[0] == c then 0
    else
      var i := 1 + IndexOf(s[1..], c);
      assert s[..i] == [s[0]] + s[1..][..i - 1];
      i
  }

  function Join(parts: seq<string>, sep: char): string
    requires parts != []
  {
    if |parts| == 1 then parts[0] else parts[0] + [sep] + Join(parts[1..], sep)
  }

  lemma {:induction false} JoinOfSplit(s: string, sep: char)
    ensures Join(Split(s, sep), sep) == s
    decreases |s|
  {
    var i := IndexOf(s, sep);
    if i < |s| {
      JoinOfSplit(s[i + 1..], sep);
      assert ([s[..i]] + Split(s[i + 1..], sep))[1..] == Split(s[i + 1..], sep);
      assert s == s[..i] + [sep] + s[i + 1..];
    }
  }

  lemma {:induction false} IndexOfHead(head: string, c: char, rest: string)
    requires c !in head
    ensures IndexOf(head + [c] + rest, c) == |head|
  {
    if head == "" {
      assert (head + [c] + rest)[0] == c;
    } else {
      assert (head + [c] + rest)[1..] == head[1..] + [c] + rest;
      IndexOfHead(head[1..], c, rest);
    }
  }

  lemma {:induction false} IndexOfAbsent(s: string, c: char)
    requires c !in s
    ensures IndexOf(s, c) == |s|
  {
    if s != "" {
      IndexOfAbsent(s[1..], c);
    }
  }

  lemma {:induction false} SplitOfJoin(parts: seq<string>, sep: char)
    requires parts != [] && forall s <- parts :: sep !in s
    ensures Split(Join(parts, sep), sep) == parts
    decreases |parts|
  {
    if |parts| == 1 {
      IndexOfAbsent(parts[0], sep);
    } else {
      var rest := Join(parts[1..], sep);
      IndexOfHead(parts[0], sep, rest);
      SplitOfJoin(parts[1..], sep);
      var s := parts[0] + [sep] + rest;
      assert s[..|parts[0]|] == parts[0] && s[|parts[0]| + 1..] == rest;
    }
  }

  lemma {:induction false} JoinHasNo(parts: seq<string>, sep: char, c: char)
    requires parts != [] && c != sep && forall s <- parts :: c !in s
    ensures c !in Join(parts, sep)
    decreases |parts|
  {
    if |parts| > 1 {
      JoinHasNo(parts[1..], sep, c);
    }
  }

  // What comes before the first c, and what comes after it.
  function Cut(s: string, c: char): (string, Option<string>) {
    var i := IndexOf(s, c);
    (s[..i], if i == |s| then None else Some(s[i + 1..]))
  }

  function Suffix(c: char, tail: Option<string>): string {
    match tail
    case None => ""
    case Some(rest) => [c] + rest
  }

  lemma CutIsUndone(s: string, c: char)
    ensures Cut(s, c).0 + Suffix(c, Cut(s, c).1) == s
  {
  }

  lemma CutOfSuffix(head: string, c: char, tail: Option<string>)
    requires c !in head
    ensures Cut(head + Suffix(c, tail), c) == (head, tail)
  {
    match tail
    case None =>
      assert head + Suffix(c, tail) == head;
      IndexOfAbsent(head, c);
    case Some(rest) =>
      assert head + Suffix(c, tail) == head + [c] + rest;
      IndexOfHead(head, c, rest);
  }

  // --- Parsing -------------------------------------------------------------

  function SplitSome(s: Option<string>): Option<seq<string>> {
    match s
    case None => None
    case Some(text) => Some(Split(text, '.'))
  }

  function JoinSome(parts: Option<seq<string>>): Option<string>
    requires parts.Some? ==> parts.value != []
  {
    match parts
    case None => None
    case Some(list) => Some(Join(list, '.'))
  }

  // SEMVER.fullmatch, by the only way its pieces can fall: the build starts at the
  // first plus sign, the prerelease at the first hyphen before it.
  function Pieces(text: string): Version {
    var (front, build) := Cut(text, '+');
    var (core, pre) := Cut(front, '-');
    Version(Split(core, '.'), SplitSome(pre), SplitSome(build))
  }

  function Parse(text: string): Option<Version> {
    if WellFormed(Pieces(text)) then Some(Pieces(text)) else None
  }

  function Front(v: Version): string
    requires WellFormed(v)
  {
    Join(v.core, '.') + Suffix('-', JoinSome(v.pre))
  }

  function Render(v: Version): string
    requires WellFormed(v)
  {
    Front(v) + Suffix('+', JoinSome(v.build))
  }

  lemma SplitIsUndone(s: Option<string>)
    ensures JoinSome(SplitSome(s)) == s
  {
    if s.Some? {
      JoinOfSplit(s.value, '.');
    }
  }

  lemma ParsedTextIsRendered(text: string)
    requires Parse(text).Some?
    ensures WellFormed(Parse(text).value) && Render(Parse(text).value) == text
  {
    var (front, build) := Cut(text, '+');
    var (core, pre) := Cut(front, '-');
    CutIsUndone(text, '+');
    CutIsUndone(front, '-');
    JoinOfSplit(core, '.');
    SplitIsUndone(pre);
    SplitIsUndone(build);
  }

  predicate Dotless(parts: seq<string>) {
    parts != [] && forall s <- parts :: '.' !in s && '+' !in s
  }

  lemma IdentsAreDotless(v: Version)
    requires WellFormed(v)
    ensures Dotless(v.core) && (forall s <- v.core :: '-' !in s)
    ensures v.pre.Some? ==> Dotless(v.pre.value)
    ensures v.build.Some? ==> Dotless(v.build.value)
  {
  }

  lemma JoinIsUndone(parts: Option<seq<string>>)
    requires parts.Some? ==> Dotless(parts.value)
    ensures SplitSome(JoinSome(parts)) == parts
    ensures parts.Some? ==> '+' !in JoinSome(parts).value
  {
    if parts.Some? {
      SplitOfJoin(parts.value, '.');
      JoinHasNo(parts.value, '.', '+');
    }
  }

  lemma RenderedTextParses(v: Version)
    requires WellFormed(v)
    ensures Parse(Render(v)) == Some(v)
  {
    IdentsAreDotless(v);
    JoinIsUndone(Some(v.core));
    JoinIsUndone(v.pre);
    JoinIsUndone(v.build);
    JoinHasNo(v.core, '.', '-');
    FrontHasNoPlus(Join(v.core, '.'), JoinSome(v.pre));
    CutOfSuffix(Front(v), '+', JoinSome(v.build));
    CutOfSuffix(Join(v.core, '.'), '-', JoinSome(v.pre));
    assert Pieces(Render(v)) == v;
  }

  lemma FrontHasNoPlus(core: string, pre: Option<string>)
    requires '+' !in core && (pre.Some? ==> '+' !in pre.value)
    ensures '+' !in core + Suffix('-', pre)
  {
  }
}
