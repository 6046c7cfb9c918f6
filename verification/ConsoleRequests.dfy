// What an operator command's request says: its body decoded key by key, and the
// fingerprint that decides whether a repeated key repeats the command.
module ConsoleRequests {
  import opened Wrappers

  // A JSON value in compact form; only integers, null and strings are looked into.
  datatype Json = Number(n: int) | Null | Text(s: string) | Other(raw: string)

  type Fields = map<string, Json>

  // --- The token stream of the body ----------------------------------------

  datatype Token = ObjectStart | ObjectEnd | Key(name: string) | Value(json: Json) | Junk

  function ObjectTokens(pairs: seq<(string, Json)>): seq<Token> {
    if pairs == [] then [] else [Key(pairs[0].0), Value(pairs[0].1)] + ObjectTokens(pairs[1..])
  }

  predicate DistinctKeys(pairs: seq<(string, Json)>) {
    forall i, j :: 0 <= i < j < |pairs| ==> pairs[i].0 != pairs[j].0
  }

  function FieldsOf(pairs: seq<(string, Json)>): Fields {
    if pairs == [] then map[] else FieldsOf(pairs[..|pairs| - 1])[pairs[|pairs| - 1].0 := pairs[|pairs| - 1].1]
  }

  // The body is one object, then nothing.
  predicate IsObject(tokens: seq<Token>, pairs: seq<(string, Json)>) {
    tokens == [ObjectStart] + ObjectTokens(pairs) + [ObjectEnd]
  }

  lemma {:induction false} FieldsHoldPairs(pairs: seq<(string, Json)>, key: string)
    ensures key in FieldsOf(pairs) <==> exists i :: 0 <= i < |pairs| && pairs[i].0 == key
    ensures DistinctKeys(pairs) ==>
              forall i :: 0 <= i < |pairs| && pairs[i].0 == key ==> FieldsOf(pairs)[key] == pairs[i].1
  {
    if pairs != [] {
      var n := |pairs| - 1;
      FieldsHoldPairs(pairs[..n], key);
      if key in FieldsOf(pairs[..n]) {
        var i :| 0 <= i < n && pairs[..n][i].0 == key;
        assert pairs[i].0 == key;
      }
      assert forall i :: 0 <= i < n ==> pairs[..n][i] == pairs[i];
      assert key in FieldsOf(pairs) ==> key == pairs[n].0 || exists i :: 0 <= i < n && pairs[i].0 == key;
    }
  }

  // Decoded fields do not depend on the order the keys came in.
  lemma KeyOrderDoesNotMatter(a: seq<(string, Json)>, b: seq<(string, Json)>)
    requires DistinctKeys(a) && DistinctKeys(b)
    requires forall pair :: pair in a <==> pair in b
    ensures FieldsOf(a) == FieldsOf(b)
  {
    forall key
      ensures key in FieldsOf(a) <==> key in FieldsOf(b)
      ensures key in FieldsOf(a) && key in FieldsOf(b) ==> FieldsOf(a)[key] == FieldsOf(b)[key]
    {
      FieldsHoldPairs(a, key);
      FieldsHoldPairs(b, key);
      if key in FieldsOf(a) {
        var i :| 0 <= i < |a| && a[i].0 == key;
        assert a[i] in b;
      }
      if key in FieldsOf(b) {
        var j :| 0 <= j < |b| && b[j].0 == key;
        assert b[j] in a;
        var i :| 0 <= i < |a| && a[i] == b[j];
      }
    }
  }

  // What the decoder makes of the tokens from `at` on, with these fields so far.
  function ParseFrom(tokens: seq<Token>, at: nat, sofar: Fields): Option<Fields>
    decreases |tokens| - at
  {
    if at >= |tokens| then None
    else
      match tokens[at]
      case ObjectEnd => if at + 1 == |tokens| then Some(sofar) else None
      case Key(name) =>
        if name in sofar || at + 1 == |tokens| || !tokens[at + 1].Value? then None
        else ParseFrom(tokens, at + 2, sofar[name := tokens[at + 1].json])
      case _ => None
  }

  function Parse(tokens: seq<Token>): Option<Fields> {
    if tokens == [] || tokens[0] != ObjectStart then None else ParseFrom(tokens, 1, map[])
  }

  // decodeConsoleCommandObject, token by token.
  method DecodeObject(tokens: seq<Token>) returns (fields: Option<Fields>)
    ensures fields == Parse(tokens)
  {
    if tokens == [] || tokens[0] != ObjectStart {
      return None;
    }
    var result: Fields := map[];
    var at := 1;
    while at < |tokens| && tokens[at] != ObjectEnd
      invariant 1 <= at <= |tokens|
      invariant Parse(tokens) == ParseFrom(tokens, at, result)
    {
      if !tokens[at].Key? || tokens[at].name in result {
        return None;
      }
      if at + 1 == |tokens| || !tokens[at + 1].Value? {
        return None;
      }
      result := result[tokens[at].name := tokens[at + 1].json];
      at := at + 2;
    }
    fields := if at + 1 == |tokens| then Some(result) else None;
  }

  lemma {:induction false} ObjectParses(
    tokens: seq<Token>, at: nat, done: seq<(string, Json)>, rest: seq<(string, Json)>)
    requires at <= |tokens| && tokens[at..] == ObjectTokens(rest) + [ObjectEnd] && DistinctKeys(done + rest)
    ensures ParseFrom(tokens, at, FieldsOf(done)) == Some(FieldsOf(done + rest))
    decreases |rest|
  {
    if rest == [] {
      assert tokens[at..] == [ObjectEnd] && done + rest == done;
      assert tokens[at] == tokens[at..][0];
    } else {
      var pair := rest[0];
      var more := done + [pair];
      assert tokens[at..] == [Key(pair.0), Value(pair.1)] + (ObjectTokens(rest[1..]) + [ObjectEnd]);
      assert tokens[at] == tokens[at..][0] && tokens[at + 1] == tokens[at..][1];
      assert tokens[at + 2..] == tokens[at..][2..];
      assert more + rest[1..] == done + rest;
      assert pair == (done + rest)[|done|];
      assert forall i :: 0 <= i < |done| ==> done[i] == (done + rest)[i];
      FieldsHoldPairs(done, pair.0);
      assert more[..|done|] == done;
      ObjectParses(tokens, at + 2, more, rest[1..]);
    }
  }

  lemma {:induction false} ParsedIsObject(tokens: seq<Token>, at: nat, done: seq<(string, Json)>)
    returns (rest: seq<(string, Json)>)
    requires at <= |tokens| && DistinctKeys(done) && ParseFrom(tokens, at, FieldsOf(done)).Some?
    ensures tokens[at..] == ObjectTokens(rest) + [ObjectEnd] && DistinctKeys(done + rest)
    decreases |tokens| - at
  {
    if tokens[at] == ObjectEnd {
      rest := [];
      assert tokens[at..] == [ObjectEnd] && done + rest == done;
    } else {
      var pair := (tokens[at].name, tokens[at + 1].json);
      var more := done + [pair];
      FieldsHoldPairs(done, pair.0);
      assert more[..|done|] == done;
      var tail := ParsedIsObject(tokens, at + 2, more);
      rest := [pair] + tail;
      assert rest[1..] == tail && done + rest == more + tail;
      assert tokens[at..] == [tokens[at], tokens[at + 1]] + tokens[at + 2..];
    }
  }

  // The decoder accepts exactly one object with distinct keys and nothing after it.
  lemma DecodesExactlyDistinctObjects(tokens: seq<Token>)
    ensures Parse(tokens).Some? <==> exists pairs :: IsObject(tokens, pairs) && DistinctKeys(pairs)
  {
    if Parse(tokens).Some? {
      var pairs := ParsedIsObject(tokens, 1, []);
      assert [] + pairs == pairs && tokens == [ObjectStart] + tokens[1..];
      assert IsObject(tokens, pairs);
    }
    if pairs :| IsObject(tokens, pairs) && DistinctKeys(pairs) {
      DecodedFields(tokens, pairs);
    }
  }

  lemma DecodedFields(tokens: seq<Token>, pairs: seq<(string, Json)>)
    requires IsObject(tokens, pairs) && DistinctKeys(pairs)
    ensures Parse(tokens) == Some(FieldsOf(pairs))
  {
    assert tokens[1..] == ObjectTokens(pairs) + [ObjectEnd] && [] + pairs == pairs;
    ObjectParses(tokens, 1, [], pairs);
  }

  // Two bodies that differ only in the order of their keys decode to the same fields.
  lemma KeyOrderIsIgnored(a: seq<Token>, b: seq<Token>, pairsA: seq<(string, Json)>, pairsB: seq<(string, Json)>)
    requires IsObject(a, pairsA) && IsObject(b, pairsB) && DistinctKeys(pairsA) && DistinctKeys(pairsB)
    requires forall pair :: pair in pairsA <==> pair in pairsB
    ensures Parse(a).Some? && Parse(a) == Parse(b)
  {
    DecodedFields(a, pairsA);
    DecodedFields(b, pairsB);
    KeyOrderDoesNotMatter(pairsA, pairsB);
  }

  // --- The fingerprint -----------------------------------------------------

  // What is hashed: "METHOD path\n" and the canonical body.
  function FingerprintInput(method': string, path: string, canonical: string): string {
    method' + " " + path + "\n" + canonical
  }

  function FirstIndex(s: string, c: char): nat {
    if s == "" || s[0] == c then 0 else 1 + FirstIndex(s[1..], c)
  }

  // How many characters follow the last c.
  function After(s: string, c: char): nat {
    if s == "" || s[|s| - 1] == c then 0 else 1 + After(s[..|s| - 1], c)
  }

  lemma {:induction false} FirstIndexIsHead(head: string, c: char, rest: string)
    requires c !in head
    ensures FirstIndex(head + [c] + rest, c) == |head|
  {
    if head == "" {
      assert (head + [c] + rest)[0] == c;
    } else {
      assert (head + [c] + rest)[1..] == head[1..] + [c] + rest;
      FirstIndexIsHead(head[1..], c, rest);
    }
  }

  lemma {:induction false} AfterIsTail(head: string, c: char, tail: string)
    requires c !in tail
    ensures After(head + [c] + tail, c) == |tail|
  {
    var s := head + [c] + tail;
    if tail == "" {
      assert s[|s| - 1] == c;
    } else {
      var n := |tail| - 1;
      assert s[|s| - 1] == tail[n] && s[..|s| - 1] == head + [c] + tail[..n];
      AfterIsTail(head, c, tail[..n]);
    }
  }

  // No two requests hash the same bytes: a method has no space, and compact JSON
  // has no line break, even if a decoded path has both.
  lemma FingerprintInputIsInjective(m1: string, p1: string, c1: string, m2: string, p2: string, c2: string)
    requires ' ' !in m1 && ' ' !in m2 && '\n' !in c1 && '\n' !in c2
    requires FingerprintInput(m1, p1, c1) == FingerprintInput(m2, p2, c2)
    ensures m1 == m2 && p1 == p2 && c1 == c2
  {
    var whole := FingerprintInput(m1, p1, c1);
    assert whole == m1 + [' '] + (p1 + "\n" + c1) == m2 + [' '] + (p2 + "\n" + c2);
    FirstIndexIsHead(m1, ' ', p1 + "\n" + c1);
    FirstIndexIsHead(m2, ' ', p2 + "\n" + c2);
    assert m1 == whole[..|m1|] && m2 == whole[..|m2|];
    assert whole == (m1 + " " + p1) + ['\n'] + c1 == (m2 + " " + p2) + ['\n'] + c2;
    AfterIsTail(m1 + " " + p1, '\n', c1);
    AfterIsTail(m2 + " " + p2, '\n', c2);
    assert c1 == whole[|whole| - |c1|..] && c2 == whole[|whole| - |c2|..];
    assert p1 == whole[|m1| + 1..|whole| - |c1| - 1] && p2 == whole[|m2| + 1..|whole| - |c2| - 1];
  }
}
