/** Retrieved documents, their deduplicating union, and the two views the answer step takes of a context. */
module Documents {
  import opened Outcome
  import opened Text

  /**
   * A LangChain document: page text plus metadata. The loader stores the file name under "source" and the
   * splitter a start index; every metadata value is kept here as its text. Two documents are taken to be the
   * same exactly when both parts are; the serialized forms `get_unique_union` compares can also differ in
   * metadata key order or a document id, which this value does not carry.
   */
  datatype Doc = Doc(pageContent: string, metadata: map<string, string>)

  const SourceKey: string := "source"

  /** The documents a sequence holds, as a set. */
  function Elements(s: seq<Doc>): set<Doc> {
    set d | d in s
  }

  predicate NoDuplicates(s: seq<Doc>) {
    forall i, j :: 0 <= i < j < |s| ==> s[i] != s[j]
  }

  /** `[doc for sublist in lists for doc in sublist]`. */
  function Flatten(lists: seq<seq<Doc>>): (flat: seq<Doc>)
    ensures forall d :: d in flat <==> exists i :: 0 <= i < |lists| && d in lists[i]
  {
    if lists == [] then [] else lists[0] + Flatten(lists[1..])
  }

  /** What `get_unique_union` promises of its result: no document twice, and exactly the documents of the input. */
  ghost predicate IsUniqueUnion(unique: seq<Doc>, lists: seq<seq<Doc>>) {
    NoDuplicates(unique) && Elements(unique) == Elements(Flatten(lists))
  }

  /** `list(s)` for a set: each element once, in an order the set does not fix. */
  method SetToList(s: set<Doc>) returns (r: seq<Doc>)
    ensures NoDuplicates(r) && Elements(r) == s
  {
    r := [];
    var rest := s;
    while rest != {}
      invariant NoDuplicates(r)
      invariant Elements(r) !! rest
      invariant Elements(r) + rest == s
      decreases rest
    {
      var d :| d in rest;
      assert Elements(r + [d]) == Elements(r) + {d};
      r := r + [d];
      rest := rest - {d};
    }
  }

  /** `get_unique_union`: flatten, deduplicate through a set, and list the set. */
  method GetUniqueUnion(documents: seq<seq<Doc>>) returns (unique: seq<Doc>)
    ensures IsUniqueUnion(unique, documents)
  {
    var flattened := Flatten(documents);
    unique := SetToList(Elements(flattened));
  }

  /** A sequence without duplicates holds each of its documents exactly once. */
  lemma {:induction false} NoDuplicatesCountOnce(s: seq<Doc>, d: Doc)
    requires NoDuplicates(s)
    ensures multiset(s)[d] == if d in s then 1 else 0
  {
    if |s| > 0 {
      assert s == [s[0]] + s[1..];
      assert multiset(s) == multiset([s[0]]) + multiset(s[1..]);
      NoDuplicatesCountOnce(s[1..], d);
      if d == s[0] {
        assert d !in s[1..] by {
          forall j | 0 <= j < |s[1..]| ensures s[1..][j] != d {
            assert s[1..][j] == s[j + 1];
          }
        }
      }
    }
  }

  /** A sequence without duplicates is exactly as long as its set of elements. */
  lemma {:induction false} NoDuplicatesCardinality(s: seq<Doc>)
    requires NoDuplicates(s)
    ensures |Elements(s)| == |s|
  {
    if |s| > 0 {
      NoDuplicatesCardinality(s[1..]);
      assert Elements(s) == {s[0]} + Elements(s[1..]);
      assert s[0] !in Elements(s[1..]) by {
        forall j | 0 <= j < |s[1..]| ensures s[1..][j] != s[0] {
          assert s[1..][j] == s[j + 1];
        }
      }
    }
  }

  /** A sequence has no more distinct elements than it has entries. */
  lemma {:induction false} ElementsCardinality(s: seq<Doc>)
    ensures |Elements(s)| <= |s|
  {
    if |s| > 0 {
      ElementsCardinality(s[1..]);
      assert Elements(s) == {s[0]} + Elements(s[1..]);
    }
  }

  /** The union is never longer than its input, and it is empty exactly when every input list is. */
  lemma UniqueUnionBounds(unique: seq<Doc>, lists: seq<seq<Doc>>)
    requires IsUniqueUnion(unique, lists)
    ensures |unique| <= |Flatten(lists)|
    ensures unique == [] <==> forall i :: 0 <= i < |lists| ==> lists[i] == []
  {
    NoDuplicatesCardinality(unique);
    ElementsCardinality(Flatten(lists));
    if exists i :: 0 <= i < |lists| && lists[i] != [] {
      var i :| 0 <= i < |lists| && lists[i] != [];
      assert lists[i][0] in Elements(unique);
    }
    if unique != [] {
      assert unique[0] in Elements(Flatten(lists));
    }
  }

  /**
   * Order is all that two unique unions of the same lists can disagree on: they are permutations of each other,
   * and a document that several lists retrieved appears exactly once.
   */
  lemma UniqueUnionsArePermutations(u1: seq<Doc>, u2: seq<Doc>, lists: seq<seq<Doc>>)
    requires IsUniqueUnion(u1, lists) && IsUniqueUnion(u2, lists)
    ensures multiset(u1) == multiset(u2)
    ensures forall i, d :: 0 <= i < |lists| && d in lists[i] ==> multiset(u1)[d] == 1
  {
    forall d ensures multiset(u1)[d] == multiset(u2)[d] {
      NoDuplicatesCountOnce(u1, d);
      NoDuplicatesCountOnce(u2, d);
      assert d in u1 <==> d in Elements(u1);
    }
    forall i, d | 0 <= i < |lists| && d in lists[i] ensures multiset(u1)[d] == 1 {
      NoDuplicatesCountOnce(u1, d);
      assert d in Elements(Flatten(lists));
    }
  }

  /** The page text of each document, in order. */
  function PageContents(context: seq<Doc>): (texts: seq<string>)
    ensures |texts| == |context|
    ensures forall i :: 0 <= i < |context| ==> texts[i] == context[i].pageContent
  {
    if context == [] then [] else [context[0].pageContent] + PageContents(context[1..])
  }

  /** `"\n\n".join(doc.page_content for doc in context)`: the context slot of the prompt. */
  function ContextText(context: seq<Doc>): (text: string)
    ensures context == [] ==> text == ""
    ensures |context| == 1 ==> text == context[0].pageContent
  {
    Join(PageContents(context), "\n\n")
  }

  /** The context text keeps the context's order: the text of a concatenation is the two texts around a blank line. */
  lemma ContextTextAppend(a: seq<Doc>, b: seq<Doc>)
    requires a != [] && b != []
    ensures ContextText(a + b) == ContextText(a) + "\n\n" + ContextText(b)
  {
    assert PageContents(a + b) == PageContents(a) + PageContents(b);
    JoinAppend(PageContents(a), PageContents(b), "\n\n");
  }

  /**
   * `[doc.metadata["source"] for doc in context]`: one entry per document, duplicates and order kept;
   * a document without a source raises `KeyError('source')`.
   */
  function Sources(context: seq<Doc>): (r: Result<seq<string>>)
    ensures r.Ok? <==> forall i :: 0 <= i < |context| ==> SourceKey in context[i].metadata
    ensures r.Err? ==> r.failure == KeyError(SourceKey)
    ensures r.Ok? ==> |r.value| == |context|
    ensures r.Ok? ==> forall i :: 0 <= i < |context| ==> r.value[i] == context[i].metadata[SourceKey]
  {
    if context == [] then Ok([])
    else if SourceKey !in context[0].metadata then Err(KeyError(SourceKey))
    else
      match Sources(context[1..])
      case Err(e) => Err(e)
      case Ok(rest) => Ok([context[0].metadata[SourceKey]] + rest)
  }

  /** A value at two positions of a sequence occurs there at least twice. */
  lemma CountedTwice(s: seq<string>, i: nat, j: nat)
    requires i < j < |s| && s[i] == s[j]
    ensures multiset(s)[s[i]] >= 2
  {
    assert s == s[..j] + s[j..];
    assert s[..j][i] == s[i];
    assert s[j..][0] == s[j];
  }

  /** Two context documents from the same file make that file appear (at least) twice among the sources. */
  lemma SourcesKeepDuplicates(context: seq<Doc>, i: nat, j: nat, source: string)
    requires i < j < |context|
    requires Sources(context).Ok?
    requires context[i].metadata[SourceKey] == source && context[j].metadata[SourceKey] == source
    ensures multiset(Sources(context).value)[source] >= 2
  {
    var s := Sources(context).value;
    assert s[i] == source && s[j] == source;
    CountedTwice(s, i, j);
  }
}
