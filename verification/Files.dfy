/** Files as the programs use them: lines by fgets(3), and partial reads and writes. */
module Files {
  import opened Wire
  import opened CText

  // ---- reading by fgets(3) ----

  /** What `fgets` with a buffer of MAXSTRING takes from the rest of a file. */
  function Chunk(rest: Bytes): (c: Bytes)
    ensures c <= rest && |c| < MAXSTRING && (rest != [] ==> c != [])
  {
    var k := FindNl(rest);
    Take(if k == |rest| then rest else rest[..k + 1], MAXSTRING - 1)
  }

  function Chunks(file: Bytes): (cs: seq<Bytes>)
    ensures forall i :: 0 <= i < |cs| ==> 0 < |cs[i]| < MAXSTRING
    decreases |file|
  {
    if file == [] then [] else [Chunk(file)] + Chunks(file[|Chunk(file)|..])
  }

  lemma Split(file: Bytes, c: Bytes)
    requires c <= file
    ensures c + file[|c|..] == file
  {
  }

  /** Nothing of the file is lost in chunks. */
  lemma {:induction false} ChunksConcat(file: Bytes)
    ensures Concat(Chunks(file)) == file
    decreases |file|
  {
    if file != [] {
      var c := Chunk(file);
      ChunksConcat(file[|c|..]);
      ConcatCons(c, Chunks(file[|c|..]));
      Split(file, c);
    }
  }

  predicate AllShort(ls: seq<Bytes>) { forall i :: 0 <= i < |ls| ==> |ls[i]| < 256 }

  /** The chunks are the lines exactly if every line fits the buffer and the last one is complete. */
  lemma ChunksAreLines(file: Bytes)
    ensures Chunks(file) == Lines(file) <==> (file == [] || EndsInNl(file)) && AllShort(Lines(file))
  {
    ChunksConcat(file);
    LinesConcat(file);
    if (file == [] || EndsInNl(file)) && AllShort(Lines(file)) { ShortLinesAreChunks(file); }
  }

  lemma {:induction false} ShortLinesAreChunks(file: Bytes)
    requires (file == [] || EndsInNl(file)) && AllShort(Lines(file))
    ensures Chunks(file) == Lines(file)
    decreases |file|
  {
    if file != [] {
      var line, rest := FirstLine(file);
      LinesCons(file, line, rest);
      FindNlIs(file, |line| - 1) by { assert file[..|line| - 1] == line[..|line| - 1]; }
      assert Lines(file)[0] == line;
      assert Chunk(file) == line && file[|line|..] == rest;
      assert forall i :: 0 <= i < |Lines(rest)| ==> Lines(rest)[i] == Lines(file)[i + 1];
      ShortLinesAreChunks(rest);
    }
  }

  /** The chunks of a text that goes on behind a newline. */
  lemma {:induction false} ChunksAppend(a: Bytes, b: Bytes)
    requires a == [] || EndsInNl(a)
    ensures Chunks(a + b) == Chunks(a) + Chunks(b)
    decreases |a|
  {
    if a == [] {
      assert a + b == b;
    } else {
      SameChunk(a, b);
      ChunksAppend(a[|Chunk(a)|..], b);
      SeqAssoc([Chunk(a)], Chunks(a[|Chunk(a)|..]), Chunks(b));
    }
  }

  lemma SameChunk(a: Bytes, b: Bytes)
    requires EndsInNl(a)
    ensures var c := Chunk(a);
            && Chunk(a + b) == c && (a + b)[|c|..] == a[|c|..] + b && (a[|c|..] == [] || EndsInNl(a[|c|..]))
  {
    var k := FindNl(a);
    HasNl(a);
    assert (a + b)[..k] == a[..k] && (a + b)[..k + 1] == a[..k + 1];
    FindNlIs(a + b, k);
  }

  /** A complete line that fits the buffer is one chunk, wherever it stands. */
  lemma LineIsChunk(before: Bytes, line: Bytes, after: Bytes)
    requires before == [] || EndsInNl(before)
    requires EndsInNl(line) && NL !in line[..|line| - 1] && |line| < MAXSTRING
    ensures Chunks(before + line + after) == Chunks(before) + [line] + Chunks(after)
  {
    FindNlIs(line, |line| - 1);
    assert line[..|line|] == line && Chunks(line[|line|..]) == [];
    assert Chunks(line) == [line];
    ChunksAppend(before, line);
    ChunksAppend(before + line, after);
  }

  lemma {:induction false} PlainChunks(file: Bytes)
    requires Plain(file)
    ensures AllPlain(Chunks(file))
    decreases |file|
  {
    if file != [] { PlainChunks(file[|Chunk(file)|..]); }
  }

  /** An open file: reads and writes may be partial; they fail only when it is not healthy. */
  class DiskFile {
    var data: Bytes
    var pos: nat
    const healthy: bool

    constructor (data: Bytes, healthy: bool)
      ensures this.data == data && pos == 0 && this.healthy == healthy
    {
      this.data, pos, this.healthy := data, 0, healthy;
    }

    /** fgets(3); the empty result stands for end of file. */
    method Gets() returns (line: Bytes)
      requires pos <= |data|
      modifies this`pos
      ensures line == Chunk(old(data[pos..])) && pos == old(pos) + |line| <= |data|
      ensures data[pos..] == old(data[pos..])[|line|..]
    {
      line := Chunk(data[pos..]);
      assert data[pos..][|line|..] == data[pos + |line|..];
      pos := pos + |line|;
    }

    method Read(want: nat) returns (n: int, got: Bytes)
      modifies this`pos
      ensures n <= want && (healthy && want > 0 && old(pos) < |data| ==> n > 0)
      ensures if n > 0 then old(pos) + n <= |data| && got == data[old(pos)..old(pos) + n] && pos == old(pos) + n
              else got == [] && pos == old(pos)
    {
      var left := if pos < |data| then |data| - pos else 0;
      n :| -1 <= n <= want && n <= left && (healthy && want > 0 && left > 0 ==> n > 0);
      got := if n > 0 then data[pos..pos + n] else [];
      if n > 0 { pos := pos + n; }
    }

    /** Writes at the end, where the position is here. */
    method Write(p: Bytes) returns (n: int)
      requires p != [] && pos == |data|
      modifies this
      ensures n <= |p| && (healthy ==> n > 0) && pos == |data|
      ensures data == old(data) + if n > 0 then p[..n] else []
    {
      n :| -1 <= n <= |p| && (healthy ==> n > 0);
      if n > 0 { data, pos := data + p[..n], pos + n; }
    }
  }
}
