/**
 * `build_retrieval_chain(emails, groq_api_key, target_date_str)`: the per-date
 * Chroma store under `vector_store/<date>` is loaded when its `chroma.sqlite3`
 * marker exists and otherwise built from the normalised mails and persisted;
 * the result is a question-answering chain over that store, or nothing when
 * there are no mails.
 *
 * The chunker, the embedding model and the language model are library code:
 * they enter as function-typed parameters and are not interpreted.
 */
module VectorStore {
  import opened MailRecord
  import Normalizer

  const StoreRoot := "vector_store"
  const MarkerFile := "chroma.sqlite3"
  const ChunkSize := 1000
  const ChunkOverlap := 100
  const EmbeddingModel := "all-MiniLM-L6-v2"
  const LlmModel := "llama-3.1-8b-instant"
  const Temperature := 0
  const ChainType := "stuff"

  /** A LangChain `Document`: only `page_content` is set. */
  datatype Document = Document(pageContent: string)

  type Vector = seq<real>

  /** `CharacterTextSplitter(chunk_size, chunk_overlap).split_documents`. */
  type Splitter = (nat, nat, seq<Document>) -> seq<Document>

  /** The embedding model, by model name. */
  type Embedder = (string, string) -> Vector

  datatype Entry = Entry(text: string, vector: Vector)

  /** The contents of one persisted Chroma store: each chunk with its embedding. */
  datatype Index = Index(entries: seq<Entry>)

  /** `RetrievalQA.from_chain_type(llm=ChatGroq(...), chain_type, retriever)`. */
  datatype QaChain = QaChain(llmModel: string, temperature: int, apiKey: string,
                             chainType: string, retriever: Index)

  /** None, or the chain over a store that was loaded or newly built. */
  datatype Outcome = NoData | Loaded(chain: QaChain) | Built(chain: QaChain)

  /**
   * The directories and persisted stores under the working directory. A
   * directory is in `stores` exactly when its `chroma.sqlite3` exists.
   */
  datatype Disk = Disk(dirs: set<string>, stores: map<string, Index>) {
    ghost predicate Valid() {
      stores.Keys <= dirs
    }
  }

  /** `os.path.join("vector_store", date)` on a POSIX system. */
  function PersistDir(date: string): (dir: string)
    ensures |dir| > 0 && dir[0] == '/' <==> |date| > 0 && date[0] == '/'
    ensures |date| > 0 && date[0] == '/' ==> dir == date
    ensures !(|date| > 0 && date[0] == '/') ==> dir == StoreRoot + "/" + date
  {
    if |date| > 0 && date[0] == '/' then date else StoreRoot + "/" + date
  }

  /** Different date strings never give the same store path string. */
  lemma PersistDirInjective(a: string, b: string)
    ensures PersistDir(a) == PersistDir(b) <==> a == b
  {
    if PersistDir(a) == PersistDir(b) && !(|a| > 0 && a[0] == '/') {
      assert a == PersistDir(a)[|StoreRoot| + 1..];
    }
  }

  /** One document per mail, in input order. */
  function Documents(emails: seq<Mail>): (docs: seq<Document>)
    ensures |docs| == |emails|
    ensures forall i :: 0 <= i < |emails| ==> docs[i] == Document(Normalizer.Normalize(emails[i]))
  {
    if emails == [] then []
    else [Document(Normalizer.Normalize(emails[0]))] + Documents(emails[1..])
  }

  /** `docs.append(Document(page_content=content))` for each mail in turn. */
  method NormalizeAll(emails: seq<Mail>) returns (docs: seq<Document>)
    ensures |docs| == |emails|
    ensures forall i :: 0 <= i < |emails| ==> docs[i].pageContent == Normalizer.Normalize(emails[i])
    ensures docs == Documents(emails)
  {
    docs := [];
    for i := 0 to |emails|
      invariant docs == Documents(emails[..i])
    {
      var content := Normalizer.Normalize(emails[i]);
      DocumentsPrefix(emails, i);
      docs := docs + [Document(content)];
    }
    assert emails[..|emails|] == emails;
  }

  /** One more mail of the input gives one more document, its own. */
  lemma DocumentsPrefix(emails: seq<Mail>, i: int)
    requires 0 <= i < |emails|
    ensures Documents(emails[..i + 1]) == Documents(emails[..i]) + [Document(Normalizer.Normalize(emails[i]))]
  {
    assert emails[..i + 1] == emails[..i] + [emails[i]];
    DocumentsAppend(emails[..i], emails[i]);
  }

  /** Documents distributes over appending one mail. */
  lemma {:induction false} DocumentsAppend(emails: seq<Mail>, mail: Mail)
    ensures Documents(emails + [mail]) == Documents(emails) + [Document(Normalizer.Normalize(mail))]
  {
    if emails != [] {
      assert (emails + [mail])[1..] == emails[1..] + [mail];
      DocumentsAppend(emails[1..], mail);
    }
  }

  /** `Chroma.from_documents(chunks, embeddings)`: every chunk stored with its embedding. */
  function Embed(chunks: seq<Document>, embed: Embedder): (entries: seq<Entry>)
    ensures |entries| == |chunks|
    ensures forall i :: 0 <= i < |chunks| ==>
              entries[i] == Entry(chunks[i].pageContent, embed(EmbeddingModel, chunks[i].pageContent))
  {
    if chunks == [] then []
    else [Entry(chunks[0].pageContent, embed(EmbeddingModel, chunks[0].pageContent))] + Embed(chunks[1..], embed)
  }

  /** The store built from the mails: normalise, split with size 1000 and overlap 100, embed. */
  function BuildIndex(emails: seq<Mail>, split: Splitter, embed: Embedder): (idx: Index)
    ensures var chunks := split(ChunkSize, ChunkOverlap, Documents(emails));
            |idx.entries| == |chunks| &&
            forall i :: 0 <= i < |chunks| ==>
              idx.entries[i].text == chunks[i].pageContent &&
              idx.entries[i].vector == embed(EmbeddingModel, chunks[i].pageContent)
  {
    Index(Embed(split(ChunkSize, ChunkOverlap, Documents(emails)), embed))
  }

  function MakeChain(index: Index, apiKey: string): (c: QaChain)
    ensures c.llmModel == LlmModel && c.temperature == 0 && c.chainType == ChainType
    ensures c.apiKey == apiKey && c.retriever == index
  {
    QaChain(LlmModel, Temperature, apiKey, ChainType, index)
  }

  /**
   * What one call does: the outcome and the disk afterwards. An empty list
   * touches nothing; otherwise the date's directory is created, and a store
   * is loaded if its marker exists and is built and persisted if not.
   */
  function GetOrBuildSpec(disk: Disk, emails: seq<Mail>, apiKey: string, date: string,
                          split: Splitter, embed: Embedder): (res: (Outcome, Disk))
    ensures res.0.NoData? <==> emails == []
    ensures emails == [] ==> res.1 == disk
    ensures res.0.Loaded? <==> emails != [] && PersistDir(date) in disk.stores
    ensures res.0.Loaded? ==> res.0.chain == MakeChain(disk.stores[PersistDir(date)], apiKey) && res.1.stores == disk.stores
    ensures res.0.Built? ==> res.0.chain == MakeChain(BuildIndex(emails, split, embed), apiKey)
    ensures emails != [] ==> res.1.dirs == disk.dirs + {PersistDir(date)}
    ensures emails != [] ==> PersistDir(date) in res.1.stores && res.0.chain.retriever == res.1.stores[PersistDir(date)]
    ensures forall dir :: dir != PersistDir(date) ==>
              (dir in res.1.stores <==> dir in disk.stores) &&
              (dir in disk.stores ==> res.1.stores[dir] == disk.stores[dir])
    ensures disk.Valid() ==> res.1.Valid()
  {
    if emails == [] then (NoData, disk)
    else
      var dir := PersistDir(date);
      var dirs := disk.dirs + {dir};
      if dir in disk.stores then
        (Loaded(MakeChain(disk.stores[dir], apiKey)), Disk(dirs, disk.stores))
      else
        var index := BuildIndex(emails, split, embed);
        (Built(MakeChain(index, apiKey)), Disk(dirs, disk.stores[dir := index]))
  }

  /** The `vector_store` tree that `build_retrieval_chain` reads and writes. */
  class StoreTree {
    var dirs: set<string>
    var stores: map<string, Index>

    ghost predicate Valid()
      reads this
    {
      Snapshot().Valid()
    }

    function Snapshot(): Disk
      reads this
    {
      Disk(dirs, stores)
    }

    constructor (disk: Disk)
      requires disk.Valid()
      ensures Valid() && Snapshot() == disk
    {
      dirs := disk.dirs;
      stores := disk.stores;
    }

    /** `build_retrieval_chain`. */
    method GetOrBuild(emails: seq<Mail>, apiKey: string, date: string,
                      split: Splitter, embed: Embedder) returns (r: Outcome)
      requires Valid()
      modifies this
      ensures Valid()
      ensures (r, Snapshot()) == GetOrBuildSpec(old(Snapshot()), emails, apiKey, date, split, embed)
    {
      if |emails| == 0 {
        return NoData;
      }
      var dir := PersistDir(date);
      dirs := dirs + {dir};
      var index: Index;
      if dir in stores {
        index := stores[dir];
        r := Loaded(MakeChain(index, apiKey));
      } else {
        var docs := NormalizeAll(emails);
        var chunks := split(ChunkSize, ChunkOverlap, docs);
        index := Index(Embed(chunks, embed));
        stores := stores[dir := index];
        r := Built(MakeChain(index, apiKey));
      }
    }
  }

  // ---------------------------------------------------------------------
  // Sequences of calls.
  // ---------------------------------------------------------------------

  datatype Call = Call(emails: seq<Mail>, apiKey: string, date: string)

  /** The outcomes of a sequence of calls made one after another, and the disk at the end. */
  function Run(disk: Disk, calls: seq<Call>, split: Splitter, embed: Embedder): (res: (seq<Outcome>, Disk))
    ensures |res.0| == |calls|
    decreases |calls|
  {
    if calls == [] then ([], disk)
    else
      var prev := Run(disk, calls[..|calls| - 1], split, embed);
      var last := calls[|calls| - 1];
      var step := GetOrBuildSpec(prev.1, last.emails, last.apiKey, last.date, split, embed);
      (prev.0 + [step.0], step.1)
  }

  /** One call never removes or replaces a persisted store. */
  lemma StepKeepsStores(disk: Disk, emails: seq<Mail>, apiKey: string, date: string,
                        split: Splitter, embed: Embedder, dir: string)
    requires dir in disk.stores
    ensures var after := GetOrBuildSpec(disk, emails, apiKey, date, split, embed).1;
            dir in after.stores && after.stores[dir] == disk.stores[dir]
  {
  }

  /** A persisted store is never replaced: later calls leave it as it was. */
  lemma {:induction false} StoresPersist(disk: Disk, calls: seq<Call>, split: Splitter, embed: Embedder, dir: string)
    requires dir in disk.stores
    ensures dir in Run(disk, calls, split, embed).1.stores
    ensures Run(disk, calls, split, embed).1.stores[dir] == disk.stores[dir]
    decreases |calls|
  {
    if calls != [] {
      var prefix := calls[..|calls| - 1];
      var last := calls[|calls| - 1];
      StoresPersist(disk, prefix, split, embed, dir);
      StepKeepsStores(Run(disk, prefix, split, embed).1, last.emails, last.apiKey, last.date, split, embed, dir);
    }
  }

  /** After a call that built a store, the store for that date exists at the end of the run. */
  lemma {:induction false} BuiltStaysPersisted(disk: Disk, calls: seq<Call>, split: Splitter, embed: Embedder, i: int)
    requires 0 <= i < |calls|
    requires Run(disk, calls, split, embed).0[i].Built?
    ensures PersistDir(calls[i].date) in Run(disk, calls, split, embed).1.stores
    decreases |calls|
  {
    var n := |calls|;
    var prefix := calls[..n - 1];
    var last := calls[n - 1];
    var prev := Run(disk, prefix, split, embed);
    if i < n - 1 {
      RunKeepsOutcome(disk, calls, split, embed, i);
      assert prefix[i] == calls[i];
      BuiltStaysPersisted(disk, prefix, split, embed, i);
      StepKeepsStores(prev.1, last.emails, last.apiKey, last.date, split, embed, PersistDir(calls[i].date));
    }
  }

  /**
   * Each date is built at most once over any sequence of calls: two calls
   * that both built a store were for different dates.
   */
  lemma {:induction false} AtMostOneBuildPerDate(disk: Disk, calls: seq<Call>, split: Splitter, embed: Embedder,
                                                 i: int, j: int)
    requires 0 <= i < j < |calls|
    requires Run(disk, calls, split, embed).0[i].Built? && Run(disk, calls, split, embed).0[j].Built?
    ensures calls[i].date != calls[j].date
    decreases |calls|
  {
    var prefix := calls[..|calls| - 1];
    RunKeepsOutcome(disk, calls, split, embed, i);
    assert prefix[i] == calls[i];
    if j < |calls| - 1 {
      RunKeepsOutcome(disk, calls, split, embed, j);
      assert prefix[j] == calls[j];
      AtMostOneBuildPerDate(disk, prefix, split, embed, i, j);
    } else {
      BuiltStaysPersisted(disk, prefix, split, embed, i);
      LastBuildIsFresh(disk, calls, split, embed);
    }
  }

  /** Appending a call leaves the outcomes of the earlier calls as they were. */
  lemma RunKeepsOutcome(disk: Disk, calls: seq<Call>, split: Splitter, embed: Embedder, k: int)
    requires 0 <= k < |calls| - 1
    ensures Run(disk, calls, split, embed).0[k] == Run(disk, calls[..|calls| - 1], split, embed).0[k]
  {
  }

  /** The last call of a run builds only when the earlier calls left no store for its date. */
  lemma LastBuildIsFresh(disk: Disk, calls: seq<Call>, split: Splitter, embed: Embedder)
    requires calls != [] && Run(disk, calls, split, embed).0[|calls| - 1].Built?
    ensures PersistDir(calls[|calls| - 1].date) !in Run(disk, calls[..|calls| - 1], split, embed).1.stores
  {
  }

  /**
   * A second call for the same date, with any non-empty mails, loads the
   * store the first call left and changes nothing on disk.
   */
  lemma SecondCallLoads(disk: Disk, first: Call, second: Call, split: Splitter, embed: Embedder)
    requires first.emails != [] && second.emails != [] && first.date == second.date
    ensures var after := GetOrBuildSpec(disk, first.emails, first.apiKey, first.date, split, embed);
            var again := GetOrBuildSpec(after.1, second.emails, second.apiKey, second.date, split, embed);
            again.0.Loaded? && again.0.chain.retriever == after.0.chain.retriever && again.1 == after.1
  {
  }

  /**
   * An empty list leaves the date without a store, and a later non-empty
   * call for that date builds one.
   */
  lemma EmptyDayThenBuild(disk: Disk, empty: Call, later: Call, split: Splitter, embed: Embedder)
    requires empty.emails == [] && later.emails != [] && empty.date == later.date
    requires PersistDir(empty.date) !in disk.stores
    ensures var after := GetOrBuildSpec(disk, empty.emails, empty.apiKey, empty.date, split, embed);
            after.0 == NoData && PersistDir(empty.date) !in after.1.stores &&
            GetOrBuildSpec(after.1, later.emails, later.apiKey, later.date, split, embed).0.Built?
  {
  }

  /** When the store exists, the mails passed in have no effect on the chain or the disk. */
  lemma LoadIgnoresMails(disk: Disk, a: seq<Mail>, b: seq<Mail>, apiKey: string, date: string,
                         split: Splitter, embed: Embedder)
    requires a != [] && b != [] && PersistDir(date) in disk.stores
    ensures GetOrBuildSpec(disk, a, apiKey, date, split, embed) == GetOrBuildSpec(disk, b, apiKey, date, split, embed)
  {
  }
}
