/** GetRandomString of utils.go: rejection sampling of letters from the
    6-bit chunks of 63-bit random words, filling the result from its last
    byte down to its first. The random source is the sequence of words
    src.Int63() hands out, in order. */
module RandomLetters {
  import opened SeqFacts

  /** The `characters` string: the 26 lower-case, then the 26 upper-case letters. */
  const Alphabet: string := "abcdefghijklmnopqrstuvwxyzABCDEFGHIJKLMNOPQRSTUVWXYZ"

  /** letterIdxMask, 1<<6 - 1: a chunk is the low six bits of the cache. */
  const IdxMask: nat := 63

  /** letterIdxMax, 63/6: the chunks one word yields before a fresh one is drawn. */
  const IdxMax: nat := 10

  /** A value of src.Int63(): a non-negative 63-bit integer. */
  type Word = w: nat | w < 0x8000_0000_0000_0000

  /** The chunks `cache & letterIdxMask` of the next `remain` turns, the
      cache shifted right by six bits after each. On a non-negative cache
      the mask is `% 64` and the shift is `/ 64`. */
  function CacheChunks(cache: nat, remain: nat): (r: seq<nat>)
    ensures |r| == remain
    decreases remain, cache
  {
    if remain == 0 then [] else [cache % 64] + CacheChunks(cache / 64, remain - 1)
  }

  /** The chunk stream of the words: IdxMax chunks from each, word after word. */
  function Chunks(words: seq<Word>): seq<nat>
    decreases |words|
  {
    if words == [] then [] else CacheChunks(words[0], IdxMax) + Chunks(words[1..])
  }

  /** A chunk that picks a letter: an index into Alphabet. */
  type Letter = c: nat | c < 52

  /** The chunks that pick a letter, in order: those below |Alphabet|. */
  function Accepted(chunks: seq<nat>): (r: seq<Letter>)
    ensures |r| <= |chunks|
    decreases |chunks|
  {
    if chunks == [] then []
    else (if chunks[0] < |Alphabet| then [chunks[0] as Letter] else []) + Accepted(chunks[1..])
  }

  /** The letters the first n owed chunks pick, laid out from position
      n-1 down to 0: the first chunk picks the last letter. */
  function Fill(owed: seq<Letter>, n: nat): (s: string)
    requires n <= |owed|
    ensures |s| == n
    decreases |owed|
  {
    if n == 0 then [] else Fill(owed[1..], n - 1) + [Alphabet[owed[0]]]
  }

  /** What GetRandomString returns when the words supply enough accepted chunks. */
  function RandomString(length: nat, words: seq<Word>): string
    requires length <= |Accepted(Chunks(words))|
  {
    Fill(Accepted(Chunks(words)), length)
  }

  /** GetRandomString. `words` stands for the successive src.Int63()
      calls: the first is made before the loop whatever the length, so at
      least one word is drawn, and the loop ends only once `length` chunks
      have been accepted. */
  method GetRandomString(length: nat, words: seq<Word>) returns (s: string)
    requires |words| >= 1 && length <= |Accepted(Chunks(words))|
    ensures s == RandomString(length, words)
  {
    ghost var r := RandomString(length, words);
    var requestID := new char[length];
    var i: int := length - 1;
    var cache: nat := words[0];
    var remain: nat := IdxMax;
    var next := 1;
    ghost var owed := Accepted(Chunks(words));
    ghost var tail: string := [];
    StreamStart(words);
    while i >= 0
      invariant -1 <= i < length && i + 1 <= |owed|
      invariant 1 <= next <= |words| && remain <= IdxMax
      invariant Owes(cache, remain, words, next, owed)
      invariant requestID[i + 1..] == tail
      invariant r == Fill(owed, i + 1) + tail
      decreases remain + 10 * (|words| - next)
    {
      if remain == 0 {
        StreamLoad(cache, words, next, owed);
        cache, remain := words[next], IdxMax;
        next := next + 1;
      }
      var idx := cache % 64;
      Turn(cache, remain, Chunks(words[next..]), owed);
      if idx < |Alphabet| {
        ghost var before := requestID[..];
        requestID[i] := Alphabet[idx];
        Accept(r, owed, i, tail, before, requestID[..]);
        tail := [Alphabet[idx]] + tail;
        i := i - 1;
        owed := owed[1..];
      }
      cache := cache / 64;
      remain := remain - 1;
    }
    s := requestID[..];
  }

  /** The accepted chunks the loop still owes, from the rest of the cache
      and the words not drawn yet. */
  ghost predicate Owes(cache: nat, remain: nat, words: seq<Word>, next: nat, owed: seq<Letter>)
    requires next <= |words|
  {
    Accepted(CacheChunks(cache, remain) + Chunks(words[next..])) == owed
  }

  /** Writing the letter of the next owed chunk at position i moves it
      from the pending part to the filled suffix. */
  lemma Accept(r: string, owed: seq<Letter>, i: nat, tail: string, before: string, after: string)
    requires i < |owed| && r == Fill(owed, i + 1) + tail
    requires i < |before| && before[i + 1..] == tail && after == before[i := Alphabet[owed[0]]]
    ensures r == Fill(owed[1..], i) + ([Alphabet[owed[0]]] + tail)
    ensures after[i..] == [Alphabet[owed[0]]] + tail
  {
    SetLast(before, after, i, Alphabet[owed[0]]);
    FillStep(owed, i, tail);
  }

  /** Writing position i of the array extends its filled suffix by one letter. */
  lemma SetLast(before: string, after: string, i: nat, c: char)
    requires i < |before| && after == before[i := c]
    ensures after[i..] == [c] + before[i + 1..]
  {
  }

  /** The letter of the next owed chunk moves from the pending part to the filled suffix. */
  lemma FillStep(owed: seq<Letter>, i: nat, tail: string)
    requires i < |owed|
    ensures Fill(owed, i + 1) + tail == Fill(owed[1..], i) + ([Alphabet[owed[0]]] + tail)
  {
    AppendAssoc(Fill(owed[1..], i), [Alphabet[owed[0]]], tail);
  }

  lemma StreamStart(words: seq<Word>)
    requires words != []
    ensures Owes(words[0], IdxMax, words, 1, Accepted(Chunks(words)))
  {
  }

  /** An exhausted cache is refilled with the next word, which exists
      while accepted chunks are still owed. */
  lemma StreamLoad(cache: nat, words: seq<Word>, next: nat, owed: seq<Letter>)
    requires next <= |words| && owed != [] && Owes(cache, 0, words, next, owed)
    ensures next < |words| && Owes(words[next], IdxMax, words, next + 1, owed)
  {
    PrependEmpty(Chunks(words[next..]));
    if next < |words| {
      assert words[next..][1..] == words[next + 1..];
    }
  }

  /** One turn of the loop: the low chunk of the cache is the next owed
      chunk, or it is discarded. */
  lemma Turn(cache: nat, remain: nat, rest: seq<nat>, owed: seq<Letter>)
    requires remain > 0 && Accepted(CacheChunks(cache, remain) + rest) == owed
    ensures cache % 64 < |Alphabet| ==>
      owed != [] && owed[0] == cache % 64 && Accepted(CacheChunks(cache / 64, remain - 1) + rest) == owed[1..]
    ensures cache % 64 >= |Alphabet| ==> Accepted(CacheChunks(cache / 64, remain - 1) + rest) == owed
  {
    var x := CacheChunks(cache / 64, remain - 1);
    AppendAssoc([cache % 64], x, rest);
    AcceptedCons(cache % 64, x + rest);
  }

  lemma AcceptedCons(c: nat, t: seq<nat>)
    ensures c < |Alphabet| ==> Accepted([c] + t) == [c as Letter] + Accepted(t)
    ensures c >= |Alphabet| ==> Accepted([c] + t) == Accepted(t)
  {
    assert ([c] + t)[0] == c;
    assert ([c] + t)[1..] == t;
    if c >= |Alphabet| {
      PrependEmpty(Accepted(t));
    }
  }

  /** Position n-1-k holds the letter of the k-th owed chunk. */
  lemma {:induction false} FillPositions(owed: seq<Letter>, n: nat)
    requires n <= |owed|
    ensures forall k :: 0 <= k < n ==> Fill(owed, n)[n - 1 - k] == Alphabet[owed[k]]
    decreases n
  {
    if n > 0 {
      FillPositions(owed[1..], n - 1);
    }
  }

  /** Accepting distributes over concatenation of chunk streams. */
  lemma {:induction false} AcceptedAppend(a: seq<nat>, b: seq<nat>)
    ensures Accepted(a + b) == Accepted(a) + Accepted(b)
    decreases |a|
  {
    if a == [] {
      assert a + b == b;
    } else {
      var c, t := a[0], a[1..];
      assert a == [c] + t;
      AcceptedAppend(t, b);
      AppendAssoc([c], t, b);
      AcceptedCons(c, t);
      AcceptedCons(c, t + b);
      AppendAssoc(if c < |Alphabet| then [c as Letter] else [], Accepted(t), Accepted(b));
    }
  }

  /** A chunk drawn after others is appended to the accepted ones when it
      picks a letter; a chunk of 52 or more is discarded and fills no position. */
  lemma DrawnLast(chunks: seq<nat>, c: nat)
    ensures c < |Alphabet| ==> Accepted(chunks + [c]) == Accepted(chunks) + [c]
    ensures c >= |Alphabet| ==> Accepted(chunks + [c]) == Accepted(chunks)
  {
    AcceptedAppend(chunks, [c]);
    assert Accepted([c]) == (if c < |Alphabet| then [c] else []) + Accepted([]);
  }

  /** A chunk is accepted exactly when it occurs in the stream and picks a
      letter: a chunk of 52 or more fills no position. */
  lemma {:induction false} AcceptedMembers(chunks: seq<nat>, x: nat)
    ensures x in Accepted(chunks) <==> x in chunks && x < |Alphabet|
    decreases |chunks|
  {
    if chunks != [] {
      AcceptedMembers(chunks[1..], x);
      assert chunks == [chunks[0]] + chunks[1..];
    }
  }

  /** Every chunk is an index in [0, IdxMask]: six bits of the cache. */
  lemma {:induction false} ChunkBounds(cache: nat, remain: nat)
    ensures forall k :: 0 <= k < remain ==> CacheChunks(cache, remain)[k] <= IdxMask
    decreases remain
  {
    if remain > 0 {
      ChunkBounds(cache / 64, remain - 1);
      assert forall k :: 1 <= k < remain ==>
        CacheChunks(cache, remain)[k] == CacheChunks(cache / 64, remain - 1)[k - 1];
    }
  }

  /** Every word gives exactly IdxMax chunks. */
  lemma {:induction false} ChunksLength(words: seq<Word>)
    ensures |Chunks(words)| == IdxMax * |words|
    decreases |words|
  {
    if words != [] {
      ChunksLength(words[1..]);
    }
  }

  /** Word j supplies chunks IdxMax * j up to IdxMax * (j + 1) of the stream. */
  lemma {:induction false} ChunksOfWord(words: seq<Word>, j: nat)
    requires j < |words|
    ensures IdxMax * (j + 1) <= |Chunks(words)|
    ensures Chunks(words)[IdxMax * j..IdxMax * (j + 1)] == CacheChunks(words[j], IdxMax)
    decreases |words|
  {
    ChunksLength(words);
    var head := CacheChunks(words[0], IdxMax);
    if j == 0 {
      SliceOfAppend(head, Chunks(words[1..]), 0, IdxMax);
    } else {
      ChunksOfWord(words[1..], j - 1);
      assert IdxMax * j == IdxMax * (j - 1) + IdxMax && IdxMax * (j + 1) == IdxMax * j + IdxMax;
      SliceOfAppend(head, Chunks(words[1..]), IdxMax * j, IdxMax * (j + 1));
    }
  }

  /** The result has exactly the requested length and holds letters
      only; reading it from its last byte back gives the letters of the
      accepted chunks in the order they were drawn. */
  lemma RandomStringLetters(length: nat, words: seq<Word>)
    requires length <= |Accepted(Chunks(words))|
    ensures |RandomString(length, words)| == length
    ensures forall i :: 0 <= i < length ==> RandomString(length, words)[i] in Alphabet
    ensures forall k :: 0 <= k < length ==>
      RandomString(length, words)[length - 1 - k] == Alphabet[Accepted(Chunks(words))[k]]
  {
    var a := Accepted(Chunks(words));
    FillPositions(a, length);
    forall i | 0 <= i < length
      ensures RandomString(length, words)[i] in Alphabet
    {
      assert RandomString(length, words)[length - 1 - (length - 1 - i)] == Alphabet[a[length - 1 - i]];
    }
  }
}
