/**
 The block structure of a text: its lines fall into chunks, and every chunk
 becomes one element. This is the specification that the loop of
 `renderMarkdown` is proved against.
 */
module Blocks {
  import opened Text
  import opened Escaping
  import opened Lines

  // ----- chunks

  /** The first closing fence at or behind `i`, or the end of the text. */
  function FenceEnd(lines: seq<string>, i: nat): (e: nat)
    requires i <= |lines|
    ensures i <= e <= |lines| && (e < |lines| ==> IsFenceClose(lines[e]))
    ensures forall k :: i <= k < e ==> !IsFenceClose(lines[k])
    decreases |lines| - i
  {
    if i < |lines| && !IsFenceClose(lines[i]) then FenceEnd(lines, i + 1) else i
  }

  /** Lines that join the list or the paragraph pending before them. */
  predicate Continues(kind: Kind, line: string) {
    match kind
    case ItemLine(ordered, _) => Classify(line).ItemLine? && Classify(line).ordered == ordered
    case ProseLine => Classify(line).ProseLine?
    case _ => false
  }

  function GroupEnd(lines: seq<string>, kind: Kind, i: nat): (e: nat)
    requires i <= |lines|
    ensures i <= e <= |lines| && (e < |lines| ==> !Continues(kind, lines[e]))
    ensures forall k :: i <= k < e ==> Continues(kind, lines[k])
    decreases |lines| - i
  {
    hide Continues;
    if i < |lines| && Continues(kind, lines[i]) then GroupEnd(lines, kind, i + 1) else i
  }

  /** How many lines the first chunk takes. */
  function ChunkLength(lines: seq<string>): (n: nat)
    requires lines != []
    ensures 1 <= n <= |lines|
  {
    var kind := Classify(lines[0]);
    if kind.FenceLine? then
      var e := FenceEnd(lines, 1); if e < |lines| then e + 1 else e
    else
      GroupEnd(lines, kind, 1)
  }

  function Chunks(lines: seq<string>): seq<seq<string>> {
    if lines == [] then []
    else [lines[..ChunkLength(lines)]] + Chunks(lines[ChunkLength(lines)..])
  }

  // ----- what a chunking is, independently of how it is computed

  function Flatten(chunks: seq<seq<string>>): seq<string> {
    if chunks == [] then [] else chunks[0] + Flatten(chunks[1..])
  }

  /** A fence with its body, a run of items of one list, a paragraph, or a single line. */
  ghost predicate IsChunk(chunk: seq<string>) {
    && chunk != []
    && var kind := Classify(chunk[0]);
       if kind.FenceLine? then forall k :: 1 <= k < |chunk| - 1 ==> !IsFenceClose(chunk[k])
       else forall k :: 1 <= k < |chunk| ==> Continues(kind, chunk[k])
  }

  /** The chunk cannot take the next line; a fence stops only at its close or at the end. */
  ghost predicate IsComplete(chunk: seq<string>, rest: seq<string>)
    requires chunk != []
  {
    rest == [] ||
    var kind := Classify(chunk[0]);
    if kind.FenceLine? then |chunk| > 1 && IsFenceClose(chunk[|chunk| - 1])
    else !Continues(kind, rest[0])
  }

  ghost predicate IsChunking(lines: seq<string>, chunks: seq<seq<string>>) {
    if chunks == [] then lines == []
    else
      && IsChunk(chunks[0])
      && |chunks[0]| <= |lines| && chunks[0] == lines[..|chunks[0]|]
      && IsComplete(chunks[0], lines[|chunks[0]|..])
      && IsChunking(lines[|chunks[0]|..], chunks[1..])
  }

  lemma FirstChunk(lines: seq<string>)
    requires lines != []
    ensures var n := ChunkLength(lines); IsChunk(lines[..n]) && IsComplete(lines[..n], lines[n..])
  {
  }

  /** A complete chunk at the front is the chunk that is taken. */
  lemma ChunkLengthUnique(lines: seq<string>, n: nat)
    requires 1 <= n <= |lines| && IsChunk(lines[..n]) && IsComplete(lines[..n], lines[n..])
    ensures ChunkLength(lines) == n
  {
    var chunk := lines[..n];
    var kind := Classify(lines[0]);
    assert chunk[0] == lines[0];
    if kind.FenceLine? {
      var e := FenceEnd(lines, 1);
      assert forall k :: 1 <= k < n - 1 ==> !IsFenceClose(chunk[k]) && chunk[k] == lines[k];
    } else {
      var e := GroupEnd(lines, kind, 1);
      assert forall k :: 1 <= k < n ==> Continues(kind, chunk[k]) && chunk[k] == lines[k];
    }
  }

  /**
   The chunking exists and is the only one: every line belongs to exactly one
   chunk, in order, lists never mix tags, and no chunk could be longer.
   */
  lemma {:induction false} ChunkingUnique(lines: seq<string>, chunks: seq<seq<string>>)
    ensures IsChunking(lines, chunks) <==> chunks == Chunks(lines)
    decreases |lines| + |chunks|
  {
    if chunks == [] {
    } else if lines == [] {
    } else {
      var n := ChunkLength(lines);
      FirstChunk(lines);
      if chunks[0] == lines[..n] {
        ChunkingUnique(lines[n..], chunks[1..]);
        assert chunks == [chunks[0]] + chunks[1..];
      } else {
        if IsChunking(lines, chunks) {
          ChunkLengthUnique(lines, |chunks[0]|);
        }
      }
    }
  }

  lemma {:induction false} ChunksKeepLines(lines: seq<string>)
    ensures Flatten(Chunks(lines)) == lines
  {
    hide ChunkLength;
    if lines != [] {
      var n := ChunkLength(lines);
      ChunksKeepLines(lines[n..]);
      assert Chunks(lines)[1..] == Chunks(lines[n..]);
      assert lines == lines[..n] + lines[n..];
    }
  }
}
