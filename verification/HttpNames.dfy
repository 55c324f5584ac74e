/** What the matcher for header names recognises. */
module HttpNames {
  import opened Bytes
  import opened HttpTypes
  import opened HttpArms

  function ToLower(c: byte): byte { if 65 <= c <= 90 then c + 32 else c }

  function Lowered(name: seq<byte>): (l: seq<byte>)
    ensures |l| == |name|
  {
    if name == [] then [] else Lowered(name[..|name| - 1]) + [ToLower(name[|name| - 1])]
  }

  lemma LoweredSnoc(name: seq<byte>, c: byte)
    ensures Lowered(name + [c]) == Lowered(name) + [ToLower(c)]
  {
    assert (name + [c])[..|name|] == name;
  }

  /** Where the matcher is after a name whose lower-case form begins with `l`, if the name can only be `word`. */
  function Along(l: seq<byte>, word: seq<byte>, partly: HeaderState, whole: HeaderState): HeaderState {
    if l == word then whole else if l <= word then partly else HGeneral
  }

  /** The header state after a name with lower-case form `l`. */
  function NameHs(l: seq<byte>): HeaderState
    requires l != []
  {
    if l[0] == 99 /* c */ then
      if |l| == 1 then HC
      else if |l| == 2 then if l[1] == 111 then HCO else HGeneral
      else if |l| == 3 then if l[1] == 111 && l[2] == 110 then HCON else HGeneral
      else if l[3] == 116 /* t */ then Along(l, CONTENT_LENGTH, HMatchingContentLength, HContentLength)
      else Along(l, CONNECTION, HMatchingConnection, HConnection)
    else if l[0] == 112 /* p */ then Along(l, PROXY_CONNECTION, HMatchingProxyConnection, HConnection)
    else if l[0] == 116 /* t */ then Along(l, TRANSFER_ENCODING, HMatchingTransferEncoding, HTransferEncoding)
    else if l[0] == 117 /* u */ then Along(l, UPGRADE, HMatchingUpgrade, HUpgrade)
    else HGeneral
  }

  /** The matcher's two variables after a name. */
  predicate NameRead(hs: HeaderState, index: nat, name: seq<byte>) {
    name != [] && hs == NameHs(Lowered(name)) && (hs.HGeneral? || Settled(hs) || index == |name| - 1)
  }

  // ---- one more letter ----

  lemma PrefixNext(l: seq<byte>, c: byte, word: seq<byte>)
    ensures l + [c] <= word <==> l <= word && |l| < |word| && word[|l|] == c
  {
    if l <= word && |l| < |word| && word[|l|] == c { assert word[..|l| + 1] == l + [c]; }
    if l + [c] <= word { assert (l + [c])[..|l|] == l; }
  }

  /** Comparing with one letter of a word, as `Match` does it. */
  lemma AlongNext(l: seq<byte>, c: byte, word: seq<byte>, partly: HeaderState, whole: HeaderState)
    requires l != [] && l <= word && l != word
    ensures Along(l + [c], word, partly, whole) == Match(partly, |l|, c, At(word, |l|), |word|, HGeneral, whole)
  {
    PrefixNext(l, c, word);
    if l + [c] <= word && |l| + 1 == |word| { assert l + [c] == word; }
  }

  lemma AlongMissed(l: seq<byte>, c: byte, word: seq<byte>, partly: HeaderState, whole: HeaderState)
    requires l == word || !(l <= word)
    ensures Along(l + [c], word, partly, whole) == HGeneral
  {
    PrefixNext(l, c, word);
  }

  /** The word and the two states of a name with this lower-case form, once its first four letters are known. */
  function WordOf(l: seq<byte>): (seq<byte>, HeaderState, HeaderState)
    requires l != []
  {
    if l[0] == 99 then
      if |l| > 3 && l[3] == 116 then (CONTENT_LENGTH, HMatchingContentLength, HContentLength)
      else (CONNECTION, HMatchingConnection, HConnection)
    else if l[0] == 112 then (PROXY_CONNECTION, HMatchingProxyConnection, HConnection)
    else if l[0] == 116 then (TRANSFER_ENCODING, HMatchingTransferEncoding, HTransferEncoding)
    else (UPGRADE, HMatchingUpgrade, HUpgrade)
  }

  predicate Decided(l: seq<byte>) {
    l != [] && (if l[0] == 99 then |l| > 3 else l[0] == 112 || l[0] == 116 || l[0] == 117)
  }

  lemma NameHsDecided(l: seq<byte>)
    requires Decided(l)
    ensures var (word, partly, whole) := WordOf(l); NameHs(l) == Along(l, word, partly, whole)
  {
  }

  lemma WordStays(l: seq<byte>, c: byte)
    requires Decided(l)
    ensures Decided(l + [c]) && WordOf(l + [c]) == WordOf(l)
  {
  }

  /** A partly matched word is compared with the letter at the index. */
  lemma ComparesNext(hs: HeaderState, i: nat, c: byte, l: seq<byte>)
    requires Decided(l) && hs == WordOf(l).1
    ensures
      var (word, partly, whole) := WordOf(l);
      FieldNext(hs, i, c) == Match(partly, i, c, At(word, i), |word|, HGeneral, whole)
  {
  }

  lemma NextName(hs: HeaderState, index: nat, l: seq<byte>, c: byte)
    requires l != [] && FieldHs(hs) && hs == NameHs(l) && !hs.HGeneral? && !Settled(hs) && index == |l| - 1
    ensures FieldNext(hs, index + 1, c) == NameHs(l + [c])
  {
    if Decided(l) {
      var (word, partly, whole) := WordOf(l);
      NameHsDecided(l);
      WordStays(l, c);
      NameHsDecided(l + [c]);
      ComparesNext(hs, index + 1, c, l);
      AlongNext(l, c, word, partly, whole);
    } else {
      Undecided(hs, l, c);
    }
  }

  /** The first letters of `con`. */
  lemma Undecided(hs: HeaderState, l: seq<byte>, c: byte)
    requires l != [] && !Decided(l) && hs == NameHs(l) && !hs.HGeneral?
    ensures FieldNext(hs, |l|, c) == NameHs(l + [c])
  {
    var k := l + [c];
    if |k| > 3 {
      assert k[..3] == l;
      assert k <= CONNECTION <==> k == CONNECTION[..4];
      assert k <= CONTENT_LENGTH <==> k == CONTENT_LENGTH[..4];
    }
  }

  lemma OverName(hs: HeaderState, l: seq<byte>, c: byte)
    requires l != [] && hs == NameHs(l) && (hs.HGeneral? || Settled(hs))
    ensures NameHs(l + [c]) == HGeneral
  {
    if Decided(l) {
      var (word, partly, whole) := WordOf(l);
      NameHsDecided(l);
      WordStays(l, c);
      NameHsDecided(l + [c]);
      AlongMissed(l, c, word, partly, whole);
    } else {
      NotCon(l, c);
    }
  }

  lemma NotCon(l: seq<byte>, c: byte)
    requires l != [] && !Decided(l) && NameHs(l).HGeneral?
    ensures NameHs(l + [c]) == HGeneral
  {
    var k := l + [c];
    if l[0] == 99 && |k| > 3 {
      assert k[1] == l[1] && k[2] == l[2];
      assert CONNECTION[1] == CONTENT_LENGTH[1] == 111 && CONNECTION[2] == CONTENT_LENGTH[2] == 110;
    }
  }

  /** Each byte of a name keeps the matcher where the name says. */
  lemma NameGoesOn(f: Fields, name: seq<byte>, ch: byte)
    requires FieldHs(f.hs) && Token(ch) != 0 && NameRead(f.hs, f.index, name)
    ensures var g := MatchField(f, ch); NameRead(g.hs, g.index, name + [ch])
  {
    hide FieldNext, NameHs;
    var l := Lowered(name);
    LoweredSnoc(name, ch);
    assert Token(ch) == ToLower(ch) && ch != SP;
    if f.hs.HGeneral? || Settled(f.hs) {
      OverName(f.hs, l, ToLower(ch));
    } else {
      NextName(f.hs, f.index, l, ToLower(ch));
    }
  }

  lemma NameBegins(ch: byte)
    requires Token(ch) != 0
    ensures NameRead(FirstHs(Token(ch)), 0, [ch])
  {
    assert Lowered([ch]) == Lowered([]) + [ToLower(ch)] by { LoweredSnoc([], ch); assert [] + [ch] == [ch]; }
    var l := Lowered([ch]);
    assert l == [ToLower(ch)] && ToLower(ch) == Token(ch);
    assert l != PROXY_CONNECTION && l != TRANSFER_ENCODING && l != UPGRADE;
    assert PROXY_CONNECTION[..1] == [112] && TRANSFER_ENCODING[..1] == [116] && UPGRADE[..1] == [117];
  }

  /** The names the parser acts on, recognised exactly and in any mixture of cases. */
  lemma NamesRecognised(l: seq<byte>)
    requires l != []
    ensures NameHs(l).HContentLength? <==> l == CONTENT_LENGTH
    ensures NameHs(l).HConnection? <==> l == CONNECTION || l == PROXY_CONNECTION
    ensures NameHs(l).HTransferEncoding? <==> l == TRANSFER_ENCODING
    ensures NameHs(l).HUpgrade? <==> l == UPGRADE
  {
  }
}
