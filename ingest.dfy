/** Vault ingestion helpers: fixed-size word chunking, text normalisation and
    the keyword-overlap retrieval over the scanned vault. */
module Ingest {
  import opened Wrappers
  import opened PyStr

  // ---------------------------------------------------------------------------
  // Normalisation
  // ---------------------------------------------------------------------------

  /** The characters `normalize` keeps after lower-casing: `[a-z0-9\s]`. */
  predicate IsKept(c: char)
  {
    'a' <= c <= 'z' || '0' <= c <= '9' || IsSpace(c)
  }

  /** `normalize`: lower-case, then delete every character outside `[a-z0-9\s]`. */
  function Normalize(text: string): (r: string)
    ensures forall i :: 0 <= i < |r| ==> IsKept(r[i])
    ensures |r| <= |text|
  {
    if text == [] then []
    else
      var c := AsciiLower(text[0]);
      (if IsKept(c) then [c] else []) + Normalize(text[1..])
  }

  /** Text made only of kept characters is left exactly as it is. */
  lemma {:induction false} NormalizeKeepsKept(text: string)
    requires forall i :: 0 <= i < |text| ==> IsKept(text[i])
    ensures Normalize(text) == text
    decreases |text|
  {
    if text != [] {
      assert AsciiLower(text[0]) == text[0];
      NormalizeKeepsKept(text[1..]);
      assert [text[0]] + text[1..] == text;
    }
  }

  /** Normalisation lower-cases first: text whose characters are all kept once
      lower-cased becomes exactly its lower-case form, so `"Tea"` becomes `"tea"`. */
  lemma {:induction false} NormalizeLowers(text: string)
    requires forall i :: 0 <= i < |text| ==> IsKept(AsciiLower(text[i]))
    ensures Normalize(text) == Lower(text)
    decreases |text|
  {
    if text != [] {
      NormalizeLowers(text[1..]);
      assert Lower(text) == [AsciiLower(text[0])] + Lower(text[1..]);
    }
  }

  /** Letter case does not matter: lower-casing before normalising changes
      nothing, so retrieval is case-insensitive. */
  lemma {:induction false} NormalizeIgnoresCase(text: string)
    ensures Normalize(Lower(text)) == Normalize(text)
    decreases |text|
  {
    if text != [] {
      NormalizeIgnoresCase(text[1..]);
      assert Lower(text)[1..] == Lower(text[1..]);
      assert AsciiLower(AsciiLower(text[0])) == AsciiLower(text[0]);
    }
  }

  /** A character that is neither a lower-case ASCII letter, a digit nor
      whitespace once lower-cased is deleted: text made only of such
      characters normalises to nothing. */
  lemma {:induction false} NormalizeDropsUnkept(text: string)
    requires forall i :: 0 <= i < |text| ==> !IsKept(AsciiLower(text[i]))
    ensures Normalize(text) == []
    decreases |text|
  {
    if text != [] {
      NormalizeDropsUnkept(text[1..]);
    }
  }

  /** Normalising twice is normalising once. */
  lemma {:induction false} NormalizeIdempotent(text: string)
    ensures Normalize(Normalize(text)) == Normalize(text)
  {
    NormalizeKeepsKept(Normalize(text));
  }

  /** Normalisation works character by character, so it distributes over
      concatenation. */
  lemma {:induction false} NormalizeOfConcat(a: string, b: string)
    ensures Normalize(a + b) == Normalize(a) + Normalize(b)
    decreases |a|
  {
    if a != [] {
      assert (a + b)[1..] == a[1..] + b;
      NormalizeOfConcat(a[1..], b);
    } else {
      assert a + b == b;
    }
  }

  // ---------------------------------------------------------------------------
  // Chunking
  // ---------------------------------------------------------------------------

  /** The consecutive word windows `words[i:i + size]` for `i = 0, size, 2*size, ...`. */
  function Windows(words: seq<string>, size: nat): (ws: seq<seq<string>>)
    requires size > 0
    decreases |words|
  {
    if words == [] then []
    else
      var k := Min(size, |words|);
      [words[..k]] + Windows(words[k..], size)
  }

  lemma {:induction false} MulAtLeast(a: int, d: int)
    requires a >= 1 && d > 0
    ensures a * d >= d
    decreases a
  {
    if a > 1 {
      MulAtLeast(a - 1, d);
      assert a * d == (a - 1) * d + d;
    }
  }

  /** Integer division is determined by quotient and remainder. */
  lemma {:induction false} DivUnique(x: int, d: int, q: int, r: int)
    requires d > 0 && 0 <= r < d && x == q * d + r
    ensures x / d == q
  {
    var q', r' := x / d, x % d;
    assert x == q' * d + r';
    assert q' * d - q * d == r - r';
    assert (q' - q) * d == q' * d - q * d;
    if q' > q {
      MulAtLeast(q' - q, d);
    } else if q' < q {
      MulAtLeast(q - q', d);
    }
  }

  /** One more window accounts for the first `min(size, n)` words. */
  lemma {:induction false} CeilStep(n: nat, size: nat)
    requires size > 0 && n > 0
    ensures (n + size - 1) / size == 1 + (n - Min(size, n) + size - 1) / size
  {
    if n >= size {
      var x := n - size + size - 1;
      DivUnique(x + size, size, x / size + 1, x % size);
    } else {
      DivUnique(n + size - 1, size, 1, n - 1);
      DivUnique(size - 1, size, 0, size - 1);
    }
  }

  /** Every window has between 1 and `size` words, all but the last exactly
      `size`, there are `ceil(|words| / size)` of them, and together, in order,
      they are exactly the words. */
  lemma {:induction false} WindowsShape(words: seq<string>, size: nat)
    requires size > 0
    ensures var ws := Windows(words, size);
      (forall i :: 0 <= i < |ws| ==> 1 <= |ws[i]| <= size)
      && (forall i :: 0 <= i < |ws| - 1 ==> |ws[i]| == size)
      && |ws| == (|words| + size - 1) / size
      && Flatten(ws) == words
    decreases |words|
  {
    if words != [] {
      var k := Min(size, |words|);
      WindowsShape(words[k..], size);
      CeilStep(|words|, size);
      var ws := Windows(words, size);
      assert ws[1..] == Windows(words[k..], size);
      assert words[..k] + words[k..] == words;
      if |ws| > 1 {
        assert |words[k..]| > 0;
        assert k == size;
      }
    }
  }

  function Flatten(ws: seq<seq<string>>): seq<string>
  {
    if ws == [] then [] else ws[0] + Flatten(ws[1..])
  }

  /** Each window joined into one chunk string by single spaces. */
  function JoinWindows(ws: seq<seq<string>>): (cs: seq<string>)
    ensures |cs| == |ws|
  {
    seq(|ws|, i requires 0 <= i < |ws| => Join(ws[i], " "))
  }

  /** The chunks `chunk_text` produces for a positive chunk size. */
  function Chunks(text: string, size: nat): seq<string>
    requires size > 0
  {
    JoinWindows(Windows(Words(text), size))
  }

  /** The words of each chunk. */
  function ChunkWords(cs: seq<string>): (ws: seq<seq<string>>)
    ensures |ws| == |cs|
  {
    seq(|cs|, i requires 0 <= i < |cs| => Words(cs[i]))
  }

  lemma {:induction false} WindowsAreWords(words: seq<string>, size: nat)
    requires size > 0
    requires forall i :: 0 <= i < |words| ==> IsWord(words[i])
    ensures var ws := Windows(words, size);
      forall i, j :: 0 <= i < |ws| && 0 <= j < |ws[i]| ==> IsWord(ws[i][j])
    decreases |words|
  {
    if words != [] {
      var k := Min(size, |words|);
      WindowsAreWords(words[k..], size);
      assert Windows(words, size)[1..] == Windows(words[k..], size);
    }
  }

  /** No word is lost, split or reordered: re-splitting every chunk and
      concatenating the word lists in order gives back `text.split()`. */
  lemma {:induction false} ChunksKeepWords(text: string, size: nat)
    requires size > 0
    ensures Flatten(ChunkWords(Chunks(text, size))) == Words(text)
  {
    var ws := Windows(Words(text), size);
    WindowsShape(Words(text), size);
    WindowsAreWords(Words(text), size);
    forall i | 0 <= i < |ws| ensures Words(Join(ws[i], " ")) == ws[i] {
      WordsOfJoin(ws[i]);
    }
    assert ChunkWords(JoinWindows(ws)) == ws;
  }

  /** Chunking empty or whitespace-only text gives no chunks, and only then. */
  lemma {:induction false} ChunksOfBlank(text: string, size: nat)
    requires size > 0
    ensures Chunks(text, size) == [] <==> AllSpace(text)
  {
    WordsEmptyIffBlank(text);
    if Words(text) != [] {
      assert |Windows(Words(text), size)| >= 1;
    }
  }

  /** Peeling off the first window of the words from position `i`. */
  lemma {:induction false} WindowsFrom(words: seq<string>, i: nat, size: nat)
    requires size > 0 && i < |words|
    ensures JoinWindows(Windows(words[i..], size)) ==
      [Join(words[i..Min(i + size, |words|)], " ")] + JoinWindows(Windows(words[Min(i + size, |words|)..], size))
  {
    var rest := words[i..];
    var stop := Min(i + size, |words|);
    assert rest[..Min(size, |rest|)] == words[i..stop];
    assert rest[Min(size, |rest|)..] == words[stop..];
    var ws := Windows(rest, size);
    assert ws == [words[i..stop]] + Windows(words[stop..], size);
    assert JoinWindows(ws)[1..] == JoinWindows(Windows(words[stop..], size));
  }

  /** `chunk_text`, with chunks of 300 words by default. `range(0, n, step)`
      raises `ValueError` for a zero step, which is the `None` result, and is
      empty for a negative step. */
  method ChunkText(text: string, chunkSize: int := 300) returns (r: Option<seq<string>>)
    ensures r.None? <==> chunkSize == 0
    ensures chunkSize < 0 ==> r == Some([])
    ensures chunkSize > 0 ==> r == Some(Chunks(text, chunkSize))
  {
    if chunkSize == 0 {
      return None;
    }
    var words := Words(text);
    var chunks: seq<string> := [];
    if chunkSize > 0 {
      var i := 0;
      while i < |words|
        invariant 0 <= i
        invariant chunks + JoinWindows(Windows(words[Min(i, |words|)..], chunkSize)) == JoinWindows(Windows(words, chunkSize))
        decreases |words| - i
      {
        var stop := Min(i + chunkSize, |words|);
        var chunk := Join(words[i..stop], " ");
        WindowsFrom(words, i, chunkSize);
        assert Min(i, |words|) == i;
        ghost var later := JoinWindows(Windows(words[stop..], chunkSize));
        assert chunks + ([chunk] + later) == (chunks + [chunk]) + later;
        chunks := chunks + [chunk];
        i := i + chunkSize;
        assert Min(i, |words|) == stop;
      }
      assert words[Min(i, |words|)..] == [];
      assert chunks == Chunks(text, chunkSize);
    }
    r := Some(chunks);
  }

  // ---------------------------------------------------------------------------
  // Keyword retrieval
  // ---------------------------------------------------------------------------

  /** One scanned file: its name and, when the record has them, its chunks. */
  datatype VaultFile = VaultFile(name: string, chunks: Option<seq<string>>)

  /** A scan result: the list of files, absent when the scan reported an error. */
  datatype VaultData = VaultData(files: Option<seq<VaultFile>>)

  /** A retained chunk with its score and the name of its file. */
  datatype Match = Match(score: nat, chunk: string, file: string)

  /** The minimum score a chunk needs to be retained. */
  const MinScore: nat := 2

  /** `file.get("chunks", [])` */
  function FileChunks(f: VaultFile): seq<string>
  {
    if f.chunks.Some? then f.chunks.value else []
  }

  /** `vault_data.get("files", [])` */
  function VaultFiles(v: VaultData): seq<VaultFile>
  {
    if v.files.Some? then v.files.value else []
  }

  /** `sum(1 for word in query_words if word in chunk_text)`: how many query
      words, counted with multiplicity, occur as substrings of the chunk text.
      It is zero exactly when none occurs and the word count exactly when all do. */
  function Score(queryWords: seq<string>, chunkText: string): (r: nat)
    ensures r <= |queryWords|
  {
    if queryWords == [] then 0
    else
      Score(queryWords[..|queryWords| - 1], chunkText)
      + (if Contains(chunkText, queryWords[|queryWords| - 1]) then 1 else 0)
  }

  /** The score is zero exactly when no query word occurs, and the word
      count exactly when every one does. */
  lemma {:induction false} ScoreExtremes(queryWords: seq<string>, chunkText: string)
    ensures var r := Score(queryWords, chunkText);
      (r == 0 <==> forall i :: 0 <= i < |queryWords| ==> !Contains(chunkText, queryWords[i]))
      && (r == |queryWords| <==> forall i :: 0 <= i < |queryWords| ==> Contains(chunkText, queryWords[i]))
  {
    if queryWords != [] {
      var init := queryWords[..|queryWords| - 1];
      ScoreExtremes(init, chunkText);
      assert forall i :: 0 <= i < |init| ==> init[i] == queryWords[i];
    }
  }

  /** Scores add up over concatenated query word lists. */
  lemma {:induction false} ScoreOfConcat(a: seq<string>, b: seq<string>, chunkText: string)
    ensures Score(a + b, chunkText) == Score(a, chunkText) + Score(b, chunkText)
    decreases |b|
  {
    if b == [] {
      assert a + b == a;
    } else {
      var bi := b[..|b| - 1];
      ScoreOfConcat(a, bi, chunkText);
      assert (a + b)[..|a + b| - 1] == a + bi;
    }
  }

  /** Every match carries the score of its chunk and meets the threshold. */
  predicate WellScored(queryWords: seq<string>, ms: seq<Match>)
  {
    forall m :: m in ms ==> m.score >= MinScore && m.score == Score(queryWords, Normalize(m.chunk))
  }

  /** The matches the inner loop collects from one file's chunks, in order. */
  function ChunkMatches(queryWords: seq<string>, name: string, chunks: seq<string>): seq<Match>
  {
    if chunks == [] then []
    else
      var c := chunks[|chunks| - 1];
      var score := Score(queryWords, Normalize(c));
      ChunkMatches(queryWords, name, chunks[..|chunks| - 1])
      + (if score >= MinScore then [Match(score, c, name)] else [])
  }

  /** A file's matches are well scored and name that file and one of its chunks. */
  lemma {:induction false} ChunkMatchesWellScored(queryWords: seq<string>, name: string, chunks: seq<string>)
    ensures var ms := ChunkMatches(queryWords, name, chunks);
      WellScored(queryWords, ms) && forall m :: m in ms ==> m.file == name && m.chunk in chunks
  {
    if chunks != [] {
      ChunkMatchesWellScored(queryWords, name, chunks[..|chunks| - 1]);
      assert forall x :: x in chunks[..|chunks| - 1] ==> x in chunks;
    }
  }

  /** Conversely, every chunk of the file that scores at least `MinScore`
      yields its match. */
  lemma {:induction false} ChunkMatchesComplete(queryWords: seq<string>, name: string, chunks: seq<string>, j: nat)
    requires j < |chunks| && Score(queryWords, Normalize(chunks[j])) >= MinScore
    ensures Match(Score(queryWords, Normalize(chunks[j])), chunks[j], name) in ChunkMatches(queryWords, name, chunks)
    decreases |chunks|
  {
    if j < |chunks| - 1 {
      var init := chunks[..|chunks| - 1];
      assert init[j] == chunks[j];
      ChunkMatchesComplete(queryWords, name, init, j);
    }
  }

  /** The matches of all files, in file-then-chunk scan order. */
  function Candidates(queryWords: seq<string>, files: seq<VaultFile>): seq<Match>
  {
    if files == [] then []
    else
      var f := files[|files| - 1];
      Candidates(queryWords, files[..|files| - 1]) + ChunkMatches(queryWords, f.name, FileChunks(f))
  }

  /** One more chunk adds at most its own match. */
  lemma {:induction false} ChunkMatchesStep(queryWords: seq<string>, name: string, chunks: seq<string>, j: nat)
    requires j < |chunks|
    ensures var score := Score(queryWords, Normalize(chunks[j]));
      ChunkMatches(queryWords, name, chunks[..j + 1]) ==
      ChunkMatches(queryWords, name, chunks[..j]) + (if score >= MinScore then [Match(score, chunks[j], name)] else [])
  {
    assert chunks[..j + 1][..j] == chunks[..j];
  }

  /** One more file adds its chunks' matches. */
  lemma {:induction false} CandidatesStep(queryWords: seq<string>, files: seq<VaultFile>, i: nat)
    requires i < |files|
    ensures Candidates(queryWords, files[..i + 1]) ==
      Candidates(queryWords, files[..i]) + ChunkMatches(queryWords, files[i].name, FileChunks(files[i]))
  {
    assert files[..i + 1][..i] == files[..i];
  }

  /** Every chunk of every file that scores at least `MinScore` is among the
      candidates. */
  lemma {:induction false} CandidatesComplete(queryWords: seq<string>, files: seq<VaultFile>, i: nat, j: nat)
    requires i < |files| && j < |FileChunks(files[i])|
    requires Score(queryWords, Normalize(FileChunks(files[i])[j])) >= MinScore
    ensures var c := FileChunks(files[i])[j];
      Match(Score(queryWords, Normalize(c)), c, files[i].name) in Candidates(queryWords, files)
    decreases |files|
  {
    var init := files[..|files| - 1];
    if i < |files| - 1 {
      assert init[i] == files[i];
      CandidatesComplete(queryWords, init, i, j);
    } else {
      ChunkMatchesComplete(queryWords, files[i].name, FileChunks(files[i]), j);
    }
  }

  /** All candidates are well scored. */
  lemma {:induction false} CandidatesWellScored(queryWords: seq<string>, files: seq<VaultFile>)
    ensures WellScored(queryWords, Candidates(queryWords, files))
  {
    if files != [] {
      var f := files[|files| - 1];
      CandidatesWellScored(queryWords, files[..|files| - 1]);
      ChunkMatchesWellScored(queryWords, f.name, FileChunks(f));
    }
  }

  // The stable sort by descending score (`list.sort(key=..., reverse=True)`).

  /** Insert `m` in front of the first element whose score is not higher. */
  function InsertByScore(m: Match, sorted: seq<Match>): seq<Match>
  {
    if sorted == [] || sorted[0].score <= m.score then [m] + sorted
    else [sorted[0]] + InsertByScore(m, sorted[1..])
  }

  /** Insertion adds exactly `m`. */
  lemma {:induction false} InsertByScorePermutes(m: Match, sorted: seq<Match>)
    ensures multiset(InsertByScore(m, sorted)) == multiset(sorted) + multiset{m}
    decreases |sorted|
  {
    if !(sorted == [] || sorted[0].score <= m.score) {
      InsertByScorePermutes(m, sorted[1..]);
      assert sorted == [sorted[0]] + sorted[1..];
    }
  }

  function SortByScore(ms: seq<Match>): seq<Match>
  {
    if ms == [] then []
    else InsertByScore(ms[0], SortByScore(ms[1..]))
  }

  /** Non-increasing scores. */
  predicate ScoreSorted(ms: seq<Match>)
  {
    forall i, j :: 0 <= i < j < |ms| ==> ms[i].score >= ms[j].score
  }

  /** The elements with score `v`, in order. */
  function WithScore(ms: seq<Match>, v: nat): seq<Match>
  {
    if ms == [] then []
    else (if ms[0].score == v then [ms[0]] else []) + WithScore(ms[1..], v)
  }

  /** No element scores above `b`. */
  predicate AllAtMost(ms: seq<Match>, b: nat)
  {
    forall i :: 0 <= i < |ms| ==> ms[i].score <= b
  }

  lemma {:induction false} InsertAtMost(m: Match, sorted: seq<Match>, b: nat)
    requires AllAtMost(sorted, b) && m.score <= b
    ensures AllAtMost(InsertByScore(m, sorted), b)
    decreases |sorted|
  {
    if !(sorted == [] || sorted[0].score <= m.score) {
      InsertAtMost(m, sorted[1..], b);
      var r := InsertByScore(m, sorted);
      assert r[1..] == InsertByScore(m, sorted[1..]);
      assert forall i :: 1 <= i < |r| ==> r[i] == r[1..][i - 1];
    }
  }

  lemma {:induction false} SortedCons(x: Match, t: seq<Match>)
    requires ScoreSorted(t) && AllAtMost(t, x.score)
    ensures ScoreSorted([x] + t)
  {
    var r := [x] + t;
    forall i, j | 0 <= i < j < |r| ensures r[i].score >= r[j].score {
      assert r[j] == t[j - 1];
      if i > 0 {
        assert r[i] == t[i - 1];
      }
    }
  }

  lemma {:induction false} InsertByScoreSorted(m: Match, sorted: seq<Match>)
    requires ScoreSorted(sorted)
    ensures ScoreSorted(InsertByScore(m, sorted))
    decreases |sorted|
  {
    if sorted == [] || sorted[0].score <= m.score {
      assert AllAtMost(sorted, m.score);
      SortedCons(m, sorted);
    } else {
      var tail := sorted[1..];
      InsertByScoreSorted(m, tail);
      assert AllAtMost(tail, sorted[0].score);
      InsertAtMost(m, tail, sorted[0].score);
      SortedCons(sorted[0], InsertByScore(m, tail));
    }
  }

  lemma {:induction false} InsertByScoreStable(m: Match, sorted: seq<Match>, v: nat)
    ensures WithScore(InsertByScore(m, sorted), v) ==
      (if m.score == v then [m] else []) + WithScore(sorted, v)
    decreases |sorted|
  {
    var r := InsertByScore(m, sorted);
    if sorted == [] || sorted[0].score <= m.score {
      assert r[0] == m && r[1..] == sorted;
    } else {
      var t := sorted[1..];
      var head := if sorted[0].score == v then [sorted[0]] else [];
      InsertByScoreStable(m, t, v);
      assert r[0] == sorted[0] && r[1..] == InsertByScore(m, t);
      assert WithScore(r, v) == head + WithScore(InsertByScore(m, t), v);
      assert WithScore(sorted, v) == head + WithScore(t, v);
      assert m.score != v || head == [];
    }
  }

  /** The sort is a permutation, orders by non-increasing score, and is
      stable: for every score, the matches with that score keep their order. */
  lemma {:induction false} SortByScoreCorrect(ms: seq<Match>)
    ensures ScoreSorted(SortByScore(ms))
    ensures multiset(SortByScore(ms)) == multiset(ms)
    ensures forall v: nat :: WithScore(SortByScore(ms), v) == WithScore(ms, v)
    decreases |ms|
  {
    if ms != [] {
      SortByScoreCorrect(ms[1..]);
      InsertByScoreSorted(ms[0], SortByScore(ms[1..]));
      InsertByScorePermutes(ms[0], SortByScore(ms[1..]));
      assert ms == [ms[0]] + ms[1..];
      forall v: nat ensures WithScore(SortByScore(ms), v) == WithScore(ms, v) {
        InsertByScoreStable(ms[0], SortByScore(ms[1..]), v);
      }
    }
  }

  /** Well-scored matches stay well scored under any permutation and prefix. */
  lemma {:induction false} WellScoredPermuted(queryWords: seq<string>, ms: seq<Match>, r: seq<Match>, k: nat)
    requires WellScored(queryWords, ms)
    requires multiset(r) == multiset(ms)
    requires k <= |r|
    ensures WellScored(queryWords, r[..k])
  {
    forall m | m in r[..k] ensures m in ms {
      assert m in r;
      assert m in multiset(r);
    }
  }

  /** A retained match needs at least two query words: a one-word query
      never retrieves anything. */
  lemma {:induction false} WellScoredNeedsTwoWords(queryWords: seq<string>, ms: seq<Match>)
    requires WellScored(queryWords, ms) && ms != []
    ensures |queryWords| >= MinScore
  {
    assert ms[0] in ms;
  }

  /** The ranked matches `retrieve_relevant_chunks` returns. */
  function Ranked(query: string, vaultData: VaultData, limit: int): seq<Match>
  {
    SliceTo(SortByScore(Candidates(Words(Normalize(query)), VaultFiles(vaultData))), limit)
  }

  /** The ranked matches are well scored, sorted by descending score, as many
      as `matches[:limit]` keeps, and empty without files or without two query
      words. */
  lemma {:induction false} RankedShape(query: string, vaultData: VaultData, limit: int)
    ensures var r := Ranked(query, vaultData, limit);
      var n := |Candidates(Words(Normalize(query)), VaultFiles(vaultData))|;
      WellScored(Words(Normalize(query)), r)
      && ScoreSorted(r)
      && (limit >= 0 ==> |r| == Min(limit, n))
      && (limit < 0 ==> |r| == n - Min(-limit, n))
      && (vaultData.files.None? ==> r == [])
      && (|Words(Normalize(query))| < MinScore ==> r == [])
  {
    var queryWords := Words(Normalize(query));
    var matches := Candidates(queryWords, VaultFiles(vaultData));
    CandidatesWellScored(queryWords, VaultFiles(vaultData));
    SortByScoreCorrect(matches);
    var sorted := SortByScore(matches);
    assert |sorted| == |matches| by {
      assert |multiset(sorted)| == |multiset(matches)|;
    }
    var results := SliceTo(sorted, limit);
    WellScoredPermuted(queryWords, matches, sorted, |results|);
    assert results == sorted[..|results|];
    if results != [] {
      WellScoredNeedsTwoWords(queryWords, results);
    }
  }

  /** The inner loop of `retrieve_relevant_chunks`: append the matches of
      one file's chunks, in chunk order, to those collected so far. */
  method CollectFileMatches(queryWords: seq<string>, f: VaultFile, matches: seq<Match>)
    returns (result: seq<Match>)
    ensures result == matches + ChunkMatches(queryWords, f.name, FileChunks(f))
  {
    result := matches;
    var chunks := FileChunks(f);
    var j := 0;
    while j < |chunks|
      invariant 0 <= j <= |chunks|
      invariant result == matches + ChunkMatches(queryWords, f.name, chunks[..j])
    {
      var chunkText := Normalize(chunks[j]);
      var score := Score(queryWords, chunkText);
      if score >= MinScore {
        result := result + [Match(score, chunks[j], f.name)];
      }
      ChunkMatchesStep(queryWords, f.name, chunks, j);
      j := j + 1;
    }
    assert chunks[..j] == chunks;
  }

  /** `retrieve_relevant_chunks`: scan every chunk of every file, keep those
      sharing at least `MinScore` query words, sort by descending score and
      return the first `limit` (3 by default). */
  method RetrieveRelevantChunks(query: string, vaultData: VaultData, limit: int := 3)
    returns (results: seq<Match>)
    ensures results == Ranked(query, vaultData, limit)
    ensures WellScored(Words(Normalize(query)), results)
    ensures ScoreSorted(results)
    ensures limit >= 0 ==> |results| == Min(limit, |Candidates(Words(Normalize(query)), VaultFiles(vaultData))|)
    ensures vaultData.files.None? ==> results == []
    ensures |Words(Normalize(query))| < MinScore ==> results == []
  {
    var queryWords := Words(Normalize(query));
    var files := VaultFiles(vaultData);
    var matches: seq<Match> := [];
    var i := 0;
    while i < |files|
      invariant 0 <= i <= |files|
      invariant matches == Candidates(queryWords, files[..i])
    {
      matches := CollectFileMatches(queryWords, files[i], matches);
      CandidatesStep(queryWords, files, i);
      i := i + 1;
    }
    assert files[..i] == files;
    results := SliceTo(SortByScore(matches), limit);
    RankedShape(query, vaultData, limit);
  }

  /** The returned matches are a prefix of all scan-order matches sorted by
      descending score, in which matches of equal score keep scan order; a
      limit at least the number of matches returns all of them. */
  lemma {:induction false} RankedIsStablePrefix(query: string, vaultData: VaultData, limit: int)
    ensures var all := Candidates(Words(Normalize(query)), VaultFiles(vaultData));
      var r := Ranked(query, vaultData, limit);
      r <= SortByScore(all)
      && (limit >= 0 ==> |r| == Min(limit, |all|))
      && (forall v: nat :: WithScore(SortByScore(all), v) == WithScore(all, v))
      && (limit >= |all| ==> r == SortByScore(all))
  {
    var all := Candidates(Words(Normalize(query)), VaultFiles(vaultData));
    SortByScoreCorrect(all);
    var sorted := SortByScore(all);
    assert |sorted| == |all| by {
      assert |multiset(sorted)| == |multiset(all)|;
    }
    var k := SliceBound(limit, |sorted|);
    assert Ranked(query, vaultData, limit) == sorted[..k];
    if limit >= |all| {
      assert k == |sorted|;
      assert sorted[..k] == sorted;
    }
  }
}
