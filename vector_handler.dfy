/** The protocol handler's two replies: `vector_search`, which post-filters
    the processor's results by path prefix and echoes the request, and
    `vector_run`, which starts a full reconciliation and answers at once. */
module VectorHandler {
  import opened Common
  import opened Files
  import opened VectorDb
  import Embedding

  /** The reply of `vector_search`. */
  datatype SearchResponse = SearchResponse(query: string, topK: int, resultsCount: int, results: seq<Record>)

  /** The reply of `vector_run`. */
  datatype RunResponse = RunResponse(status: string, message: string)

  /** `result.get('path', '')`; `None` for a value other than a string,
      on which `startswith` raises. */
  function ResultPath(r: Record): (p: Option<string>)
    ensures p.Some? && p.value != "" ==> "path" in r && r["path"] == Str(p.value)
    ensures p.None? ==> "path" in r && !r["path"].Str?
  {
    if "path" !in r then Some("") else if r["path"].Str? then Some(r["path"].s) else None
  }

  /** Some prefix of `prefixes` begins `path`. */
  predicate MatchesSome(path: string, prefixes: seq<string>) {
    exists i :: 0 <= i < |prefixes| && StartsWith(path, prefixes[i])
  }

  /** The result is kept: its path is a string that some prefix begins. */
  predicate PathMatches(x: Record, prefixes: seq<string>) {
    ResultPath(x).Some? && MatchesSome(ResultPath(x).value, prefixes)
  }

  /** The message of the `AttributeError` raised by `startswith` on a non-string path. */
  const NonStringPath := "'startswith' on a non-string path"

  /** `a` is `b` with some elements left out, in the same order. */
  predicate IsSubsequence<T(==)>(a: seq<T>, b: seq<T>)
    decreases |b|
  {
    if a == [] then true
    else if b == [] then false
    else (a[|a| - 1] == b[|b| - 1] && IsSubsequence(a[..|a| - 1], b[..|b| - 1])) || IsSubsequence(a, b[..|b| - 1])
  }

  lemma {:induction false} SubsequenceOfSelf<T>(b: seq<T>)
    ensures IsSubsequence(b, b)
    decreases |b|
  {
    if b != [] {
      SubsequenceOfSelf(b[..|b| - 1]);
    }
  }

  /** A subsequence keeps the relative order of its elements: two kept
      results appear in the same order among the original results. */
  lemma {:induction false} SubsequenceKeepsOrder<T>(a: seq<T>, b: seq<T>, i: int, j: int)
    requires IsSubsequence(a, b) && 0 <= i < j < |a|
    ensures exists k, l :: 0 <= k < l < |b| && b[k] == a[i] && b[l] == a[j]
    decreases |b|
  {
    var n, m := |a| - 1, |b| - 1;
    if a[n] == b[m] && IsSubsequence(a[..n], b[..m]) {
      if j < n {
        SubsequenceKeepsOrder(a[..n], b[..m], i, j);
        var k, l :| 0 <= k < l < m && b[..m][k] == a[i] && b[..m][l] == a[j];
        assert b[k] == a[i] && b[l] == a[j];
      } else {
        SubsequenceHas(a[..n], b[..m], i);
        var k :| 0 <= k < m && b[..m][k] == a[..n][i];
        assert b[k] == a[i] && b[m] == a[j];
      }
    } else {
      SubsequenceKeepsOrder(a, b[..m], i, j);
      var k, l :| 0 <= k < l < m && b[..m][k] == a[i] && b[..m][l] == a[j];
      assert b[k] == a[i] && b[l] == a[j];
    }
  }

  lemma {:induction false} SubsequenceHas<T>(a: seq<T>, b: seq<T>, i: int)
    requires IsSubsequence(a, b) && 0 <= i < |a|
    ensures exists k :: 0 <= k < |b| && b[k] == a[i]
    decreases |b|
  {
    var n, m := |a| - 1, |b| - 1;
    if a[n] == b[m] && IsSubsequence(a[..n], b[..m]) {
      if i < n {
        SubsequenceHas(a[..n], b[..m], i);
        var k :| 0 <= k < m && b[..m][k] == a[..n][i];
        assert b[k] == a[i];
      } else {
        assert b[m] == a[i];
      }
    } else {
      SubsequenceHas(a, b[..m], i);
      var k :| 0 <= k < m && b[..m][k] == a[i];
      assert b[k] == a[i];
    }
  }

  /** The loop of `vector_search` over `results` with the prefixes `paths`:
      each result whose path starts with some prefix is kept once, in order;
      a result with a non-string path makes the loop raise as soon as a
      prefix is tried. */
  function Filtered(results: seq<Record>, paths: seq<string>): (r: Result<seq<Record>>)
    ensures r.Err? ==> r.msg == NonStringPath
    ensures r.Err? <==> paths != [] && exists i :: 0 <= i < |results| && ResultPath(results[i]).None?
    ensures r.Ok? ==> IsSubsequence(r.value, results)
    ensures r.Ok? ==> forall x :: x in r.value <==> x in results && PathMatches(x, paths)
    decreases |results|
  {
    if results == [] then Ok([])
    else
      var n := |results| - 1;
      var last := results[n];
      assert forall x :: x in results <==> x in results[..n] || x == last by {
        assert results == results[..n] + [last];
      }
      match Filtered(results[..n], paths)
      case Err(e) => Err(e)
      case Ok(kept) =>
        if paths == [] then Ok(kept)
        else match ResultPath(last)
          case None => Err(NonStringPath)
          case Some(p) => Ok(if MatchesSome(p, paths) then kept + [last] else kept)
  }

  /** The reply of `vector_search` for the processor's `results`. */
  function Responded(query: string, topK: int, paths: Option<seq<string>>, results: seq<Record>)
    : (r: Result<SearchResponse>)
    ensures r.Ok? ==> r.value.query == query && r.value.topK == topK && r.value.resultsCount == |r.value.results|
    ensures r.Ok? ==> IsSubsequence(r.value.results, results)
    ensures paths.None? || paths == Some([]) || results == [] ==> r.Ok? && r.value.results == results
    ensures r.Ok? && paths.Some? && paths.value != [] ==>
              forall x :: x in r.value.results <==> x in results && PathMatches(x, paths.value)
  {
    SubsequenceOfSelf(results);
    if paths.Some? && paths.value != [] && results != [] then
      match Filtered(results, paths.value)
      case Err(e) => Err(e)
      case Ok(kept) => Ok(SearchResponse(query, topK, |kept|, kept))
    else Ok(SearchResponse(query, topK, |results|, results))
  }

  /** The fixed reply of `vector_run`. */
  const Processing := RunResponse("processing", "Started processing all files in watched folders")

  /** `MCPVectorHandler`, holding its embedding processor. */
  class MCPVectorHandler {
    const processor: Embedding.EmbeddingProcessor

    constructor(processor: Embedding.EmbeddingProcessor)
      ensures this.processor == processor
    {
      this.processor := processor;
    }

    /** `vector_search`: the processor's results, filtered by prefix. */
    method VectorSearch(query: string, topK: int, paths: Option<seq<string>>,
                        embed: string -> Vector, knn: (Index, Vector, int) -> Result<seq<Hit>>)
      returns (r: Result<SearchResponse>)
      ensures !processor.modelLoaded || processor.db == null ==> r == Responded(query, topK, paths, [])
      ensures processor.modelLoaded && processor.db != null ==>
                r == Responded(query, topK, paths,
                               match Searched(processor.db.State(), embed(query), topK, knn)
                               case Ok(rs) => rs
                               case Err(_) => [])
    {
      var results := processor.Search(query, topK, embed, knn);
      if paths.Some? && paths.value != [] && results != [] {
        var filtered := FilterByPrefix(results, paths.value);
        if filtered.Err? {
          return Err(filtered.msg);
        }
        results := filtered.value;
      }
      return Ok(SearchResponse(query, topK, |results|, results));
    }

    /** `vector_status`. */
    function VectorStatus(): (r: Embedding.ProcessorStatus)
      reads processor, processor.db
      ensures r.vectorDatabase.Some? <==> processor.db != null
      ensures r.modelName == processor.modelName && r.watchFolders == processor.watchFolders
    {
      processor.GetStatus()
    }

    /** `vector_run`: reconcile the watched folders with the database (the
        source starts this on a background thread) and reply at once,
        whatever `paths` is. */
    method VectorRun(fs: FileSystem, paths: Option<seq<string>>) returns (r: RunResponse)
      modifies processor, processor.db
      ensures r == Processing
    {
      processor.ProcessAllFiles(fs);
      return Processing;
    }

    /** `shutdown`. */
    method Shutdown()
      modifies processor, processor.fileMonitor, processor.db
      ensures !processor.running
    {
      processor.Shutdown();
    }
  }

  /** The filtering loop of `vector_search`. */
  method FilterByPrefix(results: seq<Record>, paths: seq<string>) returns (r: Result<seq<Record>>)
    requires paths != []
    ensures r == Filtered(results, paths)
  {
    var filtered: seq<Record> := [];
    for i := 0 to |results|
      invariant Filtered(results[..i], paths) == Ok(filtered)
    {
      assert results[..i + 1][..i] == results[..i];
      var filePath := ResultPath(results[i]);
      if filePath.None? {
        FilteredErrPersists(results, paths, i + 1);
        return Err(NonStringPath);
      }
      filtered := AppendIfMatches(filtered, results[i], filePath.value, paths);
    }
    assert results[..|results|] == results;
    return Ok(filtered);
  }

  /** The inner loop of `vector_search`: append `result` on the first
      prefix that begins `path`, then stop. */
  method AppendIfMatches(filtered: seq<Record>, result: Record, path: string, paths: seq<string>)
    returns (r: seq<Record>)
    ensures r == if MatchesSome(path, paths) then filtered + [result] else filtered
  {
    r := filtered;
    for j := 0 to |paths|
      invariant forall k :: 0 <= k < j ==> !StartsWith(path, paths[k])
    {
      if StartsWith(path, paths[j]) {
        r := r + [result];
        return;
      }
    }
  }

  /** Once the loop has raised on a prefix of the results, it raises on all of them. */
  lemma {:induction false} FilteredErrPersists(results: seq<Record>, paths: seq<string>, i: int)
    requires 0 <= i <= |results| && Filtered(results[..i], paths).Err?
    ensures Filtered(results, paths).Err?
  {
    var k :| 0 <= k < i && ResultPath(results[..i][k]).None?;
    assert results[k] == results[..i][k];
  }
}
