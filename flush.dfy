/** What one run of `DocumentSyncTask.syncDocumentContent` does to the durable store and
    the dirty set, and the cache-authority invariant it keeps. */
module Flush {
  import opened Wire
  import opened Documents

  /** Cache authority: a cached document that is neither dirty nor deleted holds the cached
      text as its durable content. */
  ghost predicate CleanAgrees(docs: DocTable, cache: map<DocId, string>, dirty: set<DocId>) {
    forall d | d in cache && d !in dirty && d in docs && Enabled(docs[d]) :: ContentText(docs[d]) == cache[d]
  }

  /** The ids of `snapshot` that one run persists: those with cached content whose read
      and save raise nothing. `fails` are the ids whose read or save throws. */
  function Persisted(snapshot: set<DocId>, cache: map<DocId, string>, fails: set<DocId>): (p: set<DocId>)
    ensures p <= snapshot && p <= cache.Keys
    ensures forall d | d in snapshot :: d in p <==> d in cache && d !in fails
  {
    set d | d in snapshot && d in cache && d !in fails
  }

  /** The ids of `snapshot` whose dirty marker one run removes: the persisted ones whose
      removal from the dirty set does not throw. `removeFails` are the ids whose removal
      throws after the save has returned; they stay dirty with their text already saved. */
  function Unmarked(snapshot: set<DocId>, cache: map<DocId, string>, fails: set<DocId>, removeFails: set<DocId>): (u: set<DocId>)
    ensures u <= Persisted(snapshot, cache, fails)
    ensures forall d | d in snapshot :: d in u <==> d in cache && d !in fails && d !in removeFails
  {
    set d | d in snapshot && d in cache && d !in fails && d !in removeFails
  }

  /** The document table after `saveContent(d, cache[d])` at time `now` for every id of
      `ids`. */
  function SavedAll(docs: DocTable, cache: map<DocId, string>, ids: set<DocId>, now: int): DocTable
    requires ids <= cache.Keys
  {
    map d | d in docs :: if d in ids && Enabled(docs[d]) then docs[d].(content := Some(cache[d]), updateTime := now) else docs[d]
  }

  /** Saving nothing leaves the store alone. */
  lemma SavedNone(docs: DocTable, cache: map<DocId, string>, now: int)
    ensures SavedAll(docs, cache, {}, now) == docs
  {
  }

  /** One more `saveContent` with the cached text extends the saved set by its id: the
      order of the saves does not matter. */
  lemma {:induction false} SavedAllStep(docs: DocTable, cache: map<DocId, string>, ids: set<DocId>, d: DocId, now: int)
    requires ids <= cache.Keys && d in cache
    ensures Saved(SavedAll(docs, cache, ids, now), d, cache[d], now) == SavedAll(docs, cache, ids + {d}, now)
  {
    var before := SavedAll(docs, cache, ids, now);
    var after := SavedAll(docs, cache, ids + {d}, now);
    assert before.Keys == docs.Keys;
    if d in docs && Enabled(docs[d]) {
      assert Enabled(before[d]);
    }
    assert Saved(before, d, cache[d], now).Keys == after.Keys;
  }

  /** Handling one more id of the snapshot adds it to the persisted set exactly when it
      has cached content and does not fail, and to the unmarked set when its removal does
      not fail either. */
  lemma PersistedStep(done: set<DocId>, d: DocId, cache: map<DocId, string>, fails: set<DocId>, removeFails: set<DocId>)
    ensures Persisted(done + {d}, cache, fails)
            == Persisted(done, cache, fails) + (if d in cache && d !in fails then {d} else {})
    ensures Unmarked(done + {d}, cache, fails, removeFails)
            == Unmarked(done, cache, fails, removeFails) + (if d in cache && d !in fails && d !in removeFails then {d} else {})
  {
  }

  /** Saving replaces content and update time only: the same documents, with the same
      owners, titles and status. */
  lemma SavedAllKeepsRows(docs: DocTable, cache: map<DocId, string>, ids: set<DocId>, now: int)
    requires ids <= cache.Keys
    ensures SavedAll(docs, cache, ids, now).Keys == docs.Keys
    ensures forall d | d in docs :: SavedAll(docs, cache, ids, now)[d].(content := docs[d].content, updateTime := docs[d].updateTime) == docs[d]
  {
  }

  /** With an empty dirty set a run persists nothing and changes nothing. */
  lemma FlushOfNothing(docs: DocTable, cache: map<DocId, string>, fails: set<DocId>, removeFails: set<DocId>, now: int)
    ensures Persisted({}, cache, fails) == {} && Unmarked({}, cache, fails, removeFails) == {}
    ensures SavedAll(docs, cache, Persisted({}, cache, fails), now) == docs
  {
  }

  /** Every persisted document that is not deleted now holds exactly the cached text,
      stamped with the time of the run. */
  lemma FlushWritesCachedText(docs: DocTable, cache: map<DocId, string>, dirty: set<DocId>, fails: set<DocId>, d: DocId, now: int)
    requires d in dirty && d in cache && d !in fails && d in docs && Enabled(docs[d])
    ensures var after := SavedAll(docs, cache, Persisted(dirty, cache, fails), now);
            d in after && after[d] == docs[d].(content := Some(cache[d]), updateTime := now)
  {
  }

  /** A dirty id without cached content, or whose read or save fails, keeps its durable
      row and its dirty marker. */
  lemma FlushKeepsUnsaved(docs: DocTable, cache: map<DocId, string>, dirty: set<DocId>, fails: set<DocId>, removeFails: set<DocId>, d: DocId, now: int)
    requires d in dirty && (d !in cache || d in fails)
    ensures d in dirty - Unmarked(dirty, cache, fails, removeFails)
    ensures d in docs ==> SavedAll(docs, cache, Persisted(dirty, cache, fails), now)[d] == docs[d]
  {
  }

  /** An id whose save succeeds but whose marker removal throws holds the cached text and
      stays dirty: the next run saves it again. */
  lemma FlushSavedButStillDirty(docs: DocTable, cache: map<DocId, string>, dirty: set<DocId>, fails: set<DocId>, removeFails: set<DocId>, d: DocId, now: int)
    requires d in dirty && d in cache && d !in fails && d in removeFails && d in docs && Enabled(docs[d])
    ensures d in dirty - Unmarked(dirty, cache, fails, removeFails)
    ensures SavedAll(docs, cache, Persisted(dirty, cache, fails), now)[d] == docs[d].(content := Some(cache[d]), updateTime := now)
  {
  }

  /** A run keeps cache authority: every marker it removes belongs to a document whose
      durable content it has just overwritten with the cached text, or to a deleted one. */
  lemma FlushKeepsAgreement(docs: DocTable, cache: map<DocId, string>, dirty: set<DocId>, fails: set<DocId>, removeFails: set<DocId>, now: int)
    requires CleanAgrees(docs, cache, dirty)
    ensures CleanAgrees(SavedAll(docs, cache, Persisted(dirty, cache, fails), now), cache, dirty - Unmarked(dirty, cache, fails, removeFails))
  {
    var p := Persisted(dirty, cache, fails);
    var u := Unmarked(dirty, cache, fails, removeFails);
    var after := SavedAll(docs, cache, p, now);
    forall d | d in cache && d !in dirty - u && d in after && Enabled(after[d])
      ensures ContentText(after[d]) == cache[d]
    {
      if d !in u {
        assert after[d] == docs[d];
      }
    }
  }

  /** Without failures a run drains the dirty set: every dirty id has cached content. */
  lemma FlushDrains(cache: map<DocId, string>, dirty: set<DocId>, fails: set<DocId>, removeFails: set<DocId>)
    requires dirty <= cache.Keys
    requires forall d | d in dirty :: d !in fails && d !in removeFails
    ensures dirty - Unmarked(dirty, cache, fails, removeFails) == {}
  {
  }
}
