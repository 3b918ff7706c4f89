/**
 * Citation extraction from the grounding metadata of a Gemini reply
 * (backend/app/citations.py): one citation per grounding chunk, whose file
 * name and chunk id come from chains of fallbacks over optional attributes.
 */
module Citations {
  import opened Wrappers
  import opened Text
  import opened Models
  import opened Sdk

  /** The truth value Python gives an `id`/`chunk_id`: `None`, '' and 0 are false. */
  function TruthyKey(k: Option<ChunkKey>): (b: bool)
    ensures b ==> k.Some? && KeyString(k.value) != ""
    ensures k.Some? && k.value.KeyText? ==> (b <==> TruthyText(Some(k.value.text)))
    ensures k.Some? && k.value.KeyNumber? ==> (b <==> KeyString(k.value) != "0")
  {
    match k
    case None => false
    case Some(KeyText(t)) => t != ""
    case Some(KeyNumber(n)) => IntToDecimalZero(n); n != 0
  }

  /** `str(key)`. */
  function KeyString(k: ChunkKey): (r: string)
    ensures k.KeyText? ==> r == k.text
    ensures k.KeyNumber? ==> r != "" && (r[0] == '-' <==> k.number < 0)
    ensures k.KeyNumber? && k.number >= 0 ==> (forall i :: 0 <= i < |r| ==> IsDigit(r[i])) && DecimalValue(r) == k.number
  {
    match k
    case KeyText(t) => t
    case KeyNumber(n) => if n >= 0 then DecimalRoundTrip(n); IntToDecimal(n) else IntToDecimal(n)
  }

  /**
   * The name a chunk's `file` object offers: its `display_name` when truthy,
   * otherwise the last '/'-segment of its `name` when it has one.
   */
  function FileObjectName(f: SourceFile): (r: Option<string>)
    ensures TruthyText(f.displayName) ==> r == f.displayName
    ensures !TruthyText(f.displayName) && f.name.Some? ==> r == Some(LastSegment(f.name.value, '/'))
    ensures !TruthyText(f.displayName) && f.name.None? ==> r == None
  {
    if TruthyText(f.displayName) then f.displayName
    else if f.name.Some? then Some(LastSegment(f.name.value, '/'))
    else None
  }

  /**
   * The file name of a citation: `source_file_name` when truthy, else what
   * the `file` object offers when that is truthy, else 'unknown'.
   */
  function FileNameOf(chunk: GroundingChunk): (r: string)
    ensures r != ""
    ensures TruthyText(chunk.sourceFileName) ==> r == chunk.sourceFileName.value
    ensures !TruthyText(chunk.sourceFileName) && chunk.file.Some? ==>
              r == (if TruthyText(FileObjectName(chunk.file.value)) then FileObjectName(chunk.file.value).value else "unknown")
    ensures !TruthyText(chunk.sourceFileName) && chunk.file.None? ==> r == "unknown"
  {
    var candidate :=
      if TruthyText(chunk.sourceFileName) then chunk.sourceFileName
      else if chunk.file.Some? then FileObjectName(chunk.file.value)
      else None;
    if TruthyText(candidate) then candidate.value else "unknown"
  }

  /** The chunk id of a citation: `str(id)` when truthy, else `str(chunk_id)` when truthy, else none. */
  function ChunkIdOf(chunk: GroundingChunk): (r: Option<string>)
    ensures TruthyKey(chunk.id) ==> r == Some(KeyString(chunk.id.value))
    ensures !TruthyKey(chunk.id) && TruthyKey(chunk.chunkId) ==> r == Some(KeyString(chunk.chunkId.value))
    ensures r.None? <==> !TruthyKey(chunk.id) && !TruthyKey(chunk.chunkId)
  {
    var key := if TruthyKey(chunk.id) then chunk.id else chunk.chunkId;
    if TruthyKey(key) then Some(KeyString(key.value)) else None
  }

  /** The citation one chunk yields; its page is copied unchanged. */
  function CitationOf(chunk: GroundingChunk): (c: Citation)
    ensures c.file != "" && c.page == chunk.page
  {
    Citation(FileNameOf(chunk), ChunkIdOf(chunk), chunk.page)
  }

  /** The chunks to cite: none when the metadata or its `grounding_chunks` is missing or empty. */
  function ChunksOf(metadata: Option<GroundingMetadata>): seq<GroundingChunk> {
    if metadata.None? then []
    else match metadata.value.groundingChunks
      case None => []
      case Some(chunks) => chunks
  }

  /** `extract_citations`, specified: the citation of every chunk, in chunk order. */
  function CitationsOf(metadata: Option<GroundingMetadata>): (cs: seq<Citation>)
    ensures |cs| == |ChunksOf(metadata)|
    ensures forall i :: 0 <= i < |cs| ==> cs[i] == CitationOf(ChunksOf(metadata)[i])
  {
    seq(|ChunksOf(metadata)|, i requires 0 <= i < |ChunksOf(metadata)| => CitationOf(ChunksOf(metadata)[i]))
  }

  /** `extract_citations`: the early returns, then one appended citation per chunk. */
  method ExtractCitations(metadata: Option<GroundingMetadata>) returns (citations: seq<Citation>)
    ensures citations == CitationsOf(metadata)
  {
    if metadata.None? {
      return [];
    }
    var groundingChunks := metadata.value.groundingChunks;
    if groundingChunks.None? || groundingChunks.value == [] {
      return [];
    }
    var chunks := groundingChunks.value;
    citations := [];
    var i := 0;
    while i < |chunks|
      invariant 0 <= i <= |chunks|
      invariant |citations| == i
      invariant forall j :: 0 <= j < i ==> citations[j] == CitationOf(chunks[j])
    {
      var chunk := chunks[i];
      var fileName := chunk.sourceFileName;
      if !TruthyText(fileName) {
        var chunkFile := chunk.file;
        if chunkFile.Some? {
          fileName := FileObjectName(chunkFile.value);
        }
      }
      var file := if TruthyText(fileName) then fileName.value else "unknown";
      var chunkId := if TruthyKey(chunk.id) then chunk.id else chunk.chunkId;
      var id := if TruthyKey(chunkId) then Some(KeyString(chunkId.value)) else None;
      assert Citation(file, id, chunk.page) == CitationOf(chunk);
      citations := citations + [Citation(file, id, chunk.page)];
      i := i + 1;
    }
  }

  // Properties of the extraction.

  /** Missing metadata, or metadata without chunks, yields no citations. */
  lemma NoChunksNoCitations(metadata: Option<GroundingMetadata>)
    requires metadata.None? || metadata.value.groundingChunks.None? || metadata.value.groundingChunks.value == []
    ensures CitationsOf(metadata) == []
  {
  }

  /** No citation ever has an empty file name. */
  lemma FileNamesNeverEmpty(metadata: Option<GroundingMetadata>)
    ensures forall c :: c in CitationsOf(metadata) ==> c.file != ""
  {
    var cs := CitationsOf(metadata);
    forall c | c in cs
      ensures c.file != ""
    {
      var i :| 0 <= i < |cs| && cs[i] == c;
      assert c == CitationOf(ChunksOf(metadata)[i]);
    }
  }

  /** Extraction distributes over a split of the chunk list: chunk order is kept. */
  lemma CitationsOfConcat(a: seq<GroundingChunk>, b: seq<GroundingChunk>)
    ensures CitationsOf(Some(GroundingMetadata(Some(a + b))))
         == CitationsOf(Some(GroundingMetadata(Some(a)))) + CitationsOf(Some(GroundingMetadata(Some(b))))
  {
    var l := CitationsOf(Some(GroundingMetadata(Some(a + b))));
    var r := CitationsOf(Some(GroundingMetadata(Some(a)))) + CitationsOf(Some(GroundingMetadata(Some(b))));
    assert |l| == |r|;
    forall i | 0 <= i < |l|
      ensures l[i] == r[i]
    {
      if i < |a| {
        assert (a + b)[i] == a[i];
      } else {
        assert (a + b)[i] == b[i - |a|];
      }
    }
  }

  /** A file object's resource name yields its last path segment when no display name is set. */
  lemma FileResourceNameExample(dir: string, base: string, fileId: Option<ChunkKey>)
    requires '/' !in base && base != ""
    ensures FileNameOf(GroundingChunk(None, Some(SourceFile(Some(""), Some(dir + "/" + base))), fileId, None, None)) == base
  {
    assert dir + "/" + base == dir + ['/'] + base;
    LastSegmentAfterSeparator(dir, '/', base);
  }

  /** Numeric ids are rendered in decimal; an id of 0 is false and falls back to `chunk_id`. */
  lemma ChunkIdFallbackExample(file: Option<SourceFile>, tag: string)
    requires tag != ""
    ensures ChunkIdOf(GroundingChunk(None, file, Some(KeyNumber(0)), Some(KeyText(tag)), None)) == Some(tag)
    ensures ChunkIdOf(GroundingChunk(None, file, Some(KeyNumber(0)), Some(KeyText("")), None)) == None
  {
  }
}
