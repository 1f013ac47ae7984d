/** `load_word_documents`: which files of the data folder become documents, and how they are tagged. */
module Loading {
  import opened Text
  import opened Documents

  /** A directory entry: its file name and, for a Word file, the text of its paragraphs. */
  datatype DirEntry = DirEntry(name: string, paragraphs: seq<string>)

  const DocxSuffix: string := ".docx"

  /** The paragraphs joined by newlines: the text of the whole file. */
  function FullText(e: DirEntry): string {
    Join(e.paragraphs, "\n")
  }

  /** A file is loaded when it is a Word file whose text has something other than whitespace. */
  predicate IsLoaded(e: DirEntry) {
    EndsWith(e.name, DocxSuffix) && !IsBlank(FullText(e))
  }

  /** The document made from a file: its text, tagged with its file name as the source. */
  function Tagged(e: DirEntry): (d: Doc)
    ensures d.metadata == map[SourceKey := e.name]
    ensures d.pageContent == FullText(e)
  {
    Doc(FullText(e), map[SourceKey := e.name])
  }

  /** The documents loaded from a directory listing, in listing order. */
  function LoadedDocs(entries: seq<DirEntry>): seq<Doc> {
    if entries == [] then []
    else
      var last := entries[|entries| - 1];
      LoadedDocs(entries[..|entries| - 1]) + (if IsLoaded(last) then [Tagged(last)] else [])
  }

  /** The loop of `load_word_documents` over the listing; the warnings it prints are left out. */
  method LoadWordDocuments(entries: seq<DirEntry>) returns (docs: seq<Doc>)
    ensures docs == LoadedDocs(entries)
  {
    docs := [];
    for i := 0 to |entries|
      invariant docs == LoadedDocs(entries[..i])
    {
      var e := entries[i];
      assert entries[..i + 1][..i] == entries[..i];
      if EndsWith(e.name, DocxSuffix) {
        var fullText := Join(e.paragraphs, "\n");
        if !IsBlank(fullText) {
          docs := docs + [Doc(fullText, map[SourceKey := e.name])];
        }
      }
    }
    assert entries[..|entries|] == entries;
  }

  /** A document is loaded exactly when it is the tagged form of a loaded file of the listing. */
  lemma {:induction false} LoadedDocsMembers(entries: seq<DirEntry>, d: Doc)
    ensures d in LoadedDocs(entries) <==> exists e :: e in entries && IsLoaded(e) && d == Tagged(e)
  {
    if entries != [] {
      var init := entries[..|entries| - 1];
      var last := entries[|entries| - 1];
      LoadedDocsMembers(init, d);
      assert entries == init + [last];
      if d in LoadedDocs(entries) && d !in LoadedDocs(init) {
        assert IsLoaded(last) && d == Tagged(last);
      }
      if exists e :: e in entries && IsLoaded(e) && d == Tagged(e) {
        var e :| e in entries && IsLoaded(e) && d == Tagged(e);
        if e != last {
          assert e in init;
        }
      }
    }
  }

  /** Every loaded document comes from a Word file, has non-blank text, and names its file as its source. */
  lemma LoadedDocsAreTaggedWordFiles(entries: seq<DirEntry>, d: Doc)
    requires d in LoadedDocs(entries)
    ensures SourceKey in d.metadata && EndsWith(d.metadata[SourceKey], DocxSuffix)
    ensures !IsBlank(d.pageContent)
    ensures exists e :: e in entries && e.name == d.metadata[SourceKey]
  {
    LoadedDocsMembers(entries, d);
    var e :| e in entries && IsLoaded(e) && d == Tagged(e);
    assert e.name == d.metadata[SourceKey];
  }

  /** Loading the concatenation of two listings loads each in turn: the listing's order is kept. */
  lemma {:induction false} LoadedDocsAppend(a: seq<DirEntry>, b: seq<DirEntry>)
    ensures LoadedDocs(a + b) == LoadedDocs(a) + LoadedDocs(b)
    decreases |b|
  {
    if b == [] {
      assert a + b == a;
    } else {
      var init := b[..|b| - 1];
      assert (a + b)[..|a + b| - 1] == a + init;
      LoadedDocsAppend(a, init);
    }
  }

  /** At most one document per file. */
  lemma {:induction false} LoadedDocsLength(entries: seq<DirEntry>)
    ensures |LoadedDocs(entries)| <= |entries|
  {
    if entries != [] {
      LoadedDocsLength(entries[..|entries| - 1]);
    }
  }
}
