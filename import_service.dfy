/**
 * PostImportService: fetch the posts with retry, decode them, map them to
 * entities and store them, with a per-row fallback when the bulk save fails.
 *
 * The asynchronous composition is modelled as sequential code: each stage
 * starts only after the previous one has completed, and a failed stage
 * skips the ones after it. The JSON decoder is a parameter (`parse`), the
 * HTTP responses are a script, and whether each store call throws is given.
 */
module ImportService {
  import opened Wrappers
  import opened PostModels
  import opened Retry
  import opened Repository
  import RetryProperties

  /** Why an import failed. */
  datatype ImportError =
    | FetchFailed(cause: FetchError)   // the failed future of fetchWithRetry
    | ParseFailed(message: string)     // readValue threw an IOException
    | NullDecoded                      // the decoded list or one of its elements was null: a NullPointerException
    | SaveFailed                       // saveAll threw something other than a DataAccessException

  const ParseFailureMessage := "Failed to parse JSON"

  /** The attempts fetchAndSaveAllPosts gives fetchWithRetry. */
  const FetchAttempts := 3

  /** The stage made no store call: the table and both call records are as before. */
  twostate predicate NoStoreCall(repo: PostRepository)
    reads repo
  {
    && repo.rows == old(repo.rows)
    && repo.saveAllCalls == old(repo.saveAllCalls)
    && repo.saveCalls == old(repo.saveCalls)
  }

  /**
   * What parseAndSaveBatch(body) does to the repository and returns. A parse
   * failure fails before any store call, and so does a decoded null list or
   * null element, with a NullPointerException from the stream. Otherwise the
   * decoded list is mapped to entities and saved with one saveAll: if it
   * succeeds no per-row save happens; on a DataAccessException save is called
   * once per entity, in list order, each failure swallowed, and the stage
   * completes normally; any other exception from saveAll fails the stage.
   */
  twostate predicate BatchSaved(repo: PostRepository, body: string, parse: string -> Option<Decoded>,
                                bulkFault: Option<StoreFault>, rowThrows: nat -> bool,
                                new r: Result<(), ImportError>)
    reads repo
  {
    match parse(body)
    case None =>
      r == Err(ParseFailed(ParseFailureMessage)) && NoStoreCall(repo)
    case Some(NullList) =>
      r == Err(NullDecoded) && NoStoreCall(repo)
    case Some(Items(items)) =>
      match NonNullElements(items)
      case None =>
        r == Err(NullDecoded) && NoStoreCall(repo)
      case Some(dtos) =>
        var entities := ToEntities(dtos);
        && repo.saveAllCalls == old(repo.saveAllCalls) + [entities]
        && match bulkFault
           case None =>
             && r == Ok(())
             && repo.rows == Upserted(old(repo.rows), entities)
             && repo.saveCalls == old(repo.saveCalls)
           case Some(DataAccess) =>
             && r == Ok(())
             && repo.rows == SavedEach(old(repo.rows), entities, rowThrows)
             && repo.saveCalls == old(repo.saveCalls) + entities
           case Some(OtherFault) =>
             && r == Err(SaveFailed)
             && repo.rows == old(repo.rows)
             && repo.saveCalls == old(repo.saveCalls)
  }

  class PostImportService {
    const repository: PostRepository

    constructor (repository: PostRepository)
      ensures this.repository == repository
    {
      this.repository := repository;
    }

    /**
     * fetchAndSaveAllPosts: fetchWithRetry(3), then parseAndSaveBatch on the
     * body. A failed fetch skips parsing and saving. `fetch` is the trace of
     * the fetch stage.
     */
    method FetchAndSaveAllPosts(script: seq<Response>, parse: string -> Option<Decoded>,
                                bulkFault: Option<StoreFault>, rowThrows: nat -> bool)
      returns (r: Result<(), ImportError>, ghost fetch: Fetch)
      modifies repository
      ensures fetch == FetchWithRetry(FetchAttempts, script)
      ensures fetch.result.Err? ==>
        && r == Err(FetchFailed(fetch.result.error))
        && unchanged(repository)
      ensures fetch.result.Ok? ==> BatchSaved(repository, fetch.result.value, parse, bulkFault, rowThrows, r)
    {
      var fetched := FetchWithRetry(FetchAttempts, script);
      fetch := fetched;
      match fetched.result
      case Err(e) =>
        r := Err(FetchFailed(e));
      case Ok(body) =>
        r := ParseAndSaveBatch(body, parse, bulkFault, rowThrows);
    }

    /** parseAndSaveBatch(body). */
    method ParseAndSaveBatch(body: string, parse: string -> Option<Decoded>,
                             bulkFault: Option<StoreFault>, rowThrows: nat -> bool)
      returns (r: Result<(), ImportError>)
      modifies repository
      ensures BatchSaved(repository, body, parse, bulkFault, rowThrows, r)
    {
      var parsed := parse(body);
      if parsed.None? {
        return Err(ParseFailed(ParseFailureMessage));
      }
      if parsed.value.NullList? {
        return Err(NullDecoded);
      }
      var dtos := NonNullElements(parsed.value.items);
      if dtos.None? {
        return Err(NullDecoded);
      }
      var entities := ToEntities(dtos.value);
      var thrown := repository.SaveAll(entities, bulkFault);
      match thrown
      case None =>
        r := Ok(());
      case Some(DataAccess) =>
        // Fall back to one save per entity; a failing row is skipped.
        for i := 0 to |entities|
          invariant repository.rows == SavedEach(old(repository.rows), entities[..i], rowThrows)
          invariant repository.saveCalls == old(repository.saveCalls) + entities[..i]
          invariant repository.saveAllCalls == old(repository.saveAllCalls) + [entities]
        {
          assert entities[..i + 1][..i] == entities[..i];
          var _ := repository.Save(entities[i], rowThrows(i));
          assert entities[..i + 1] == entities[..i] + [entities[i]];
        }
        assert entities[..|entities|] == entities;
        r := Ok(());
      case Some(OtherFault) =>
        r := Err(SaveFailed);
    }
  }

  /**
   * A client of the service: one post is fetched on the first attempt,
   * decoded and saved in bulk into an empty table, and the import succeeds
   * with exactly that row.
   */
  method ImportOnePostScenario() returns (r: Result<(), ImportError>, rows: map<int, Post>)
    ensures r == Ok(()) && rows == map[1 := Post(1, 1, "t", "b")]
  {
    var repo := new PostRepository(map[]);
    var service := new PostImportService(repo);
    var body := "[{\"id\":1,\"userId\":1,\"title\":\"t\",\"body\":\"b\"}]";
    var parse := (s: string) => if s == body then Some(Items([Some(PostDto(1, 1, "t", "b"))])) else None;
    RetryProperties.FirstResponseOk(FetchAttempts, body, []);
    assert [Status(200, body)] + [] == [Status(200, body)];
    ghost var fetch;
    r, fetch := service.FetchAndSaveAllPosts([Status(200, body)], parse, None, _ => false);
    var items := [Some(PostDto(1, 1, "t", "b"))];
    assert NonNullElements(items[1..]) == Some([]) by {
      assert items[1..] == [];
    }
    assert [PostDto(1, 1, "t", "b")] + [] == [PostDto(1, 1, "t", "b")];
    assert NonNullElements(items) == Some([PostDto(1, 1, "t", "b")]);
    assert ToEntities([PostDto(1, 1, "t", "b")]) == [Post(1, 1, "t", "b")];
    assert Upserted(map[], [Post(1, 1, "t", "b")]) == map[1 := Post(1, 1, "t", "b")];
    rows := repo.rows;
  }
}
