/** The storage service: entries and cached insights per user in the
    document database, and the browser-storage fallback for entries when
    the database is not configured. The database is modelled as maps held
    by a `Store`; whether each database call succeeds is a parameter. */
module FirebaseService {
  import opened Wrappers
  import opened Types
  import opened Decimal
  import opened StableSort

  datatype TimeframeType = Month | Year

  function TypeName(t: TimeframeType): string {
    match t
    case Month => "month"
    case Year => "year"
  }

  /** `${timeframeType}_${timeframeKey}`: the insight's document id. */
  function InsightId(t: TimeframeType, key: string): string {
    TypeName(t) + "_" + key
  }

  /** Neither type name contains "_", so distinct (type, key) pairs get
      distinct document ids. */
  lemma InsightIdInjective(t1: TimeframeType, k1: string, t2: TimeframeType, k2: string)
    ensures InsightId(t1, k1) == InsightId(t2, k2) <==> t1 == t2 && k1 == k2
  {
    if InsightId(t1, k1) == InsightId(t2, k2) {
      assert InsightId(t1, k1)[0] == InsightId(t2, k2)[0];
      assert t1 == t2;
      var n := |TypeName(t1)| + 1;
      assert InsightId(t1, k1)[n..] == k1;
      assert InsightId(t2, k2)[n..] == k2;
    }
  }

  /** A stored insight document. Documents written elsewhere may lack the
      id list. */
  datatype InsightDoc = InsightDoc(
    timeframeType: TimeframeType,
    timeframeKey: string,
    content: string,
    generatedAt: int,
    accomplishmentCount: int,
    accomplishmentIds: Option<seq<string>>)

  datatype Insight = Insight(
    id: string,
    timeframeType: TimeframeType,
    timeframeKey: string,
    content: string,
    generatedAt: int,
    accomplishmentCount: int,
    accomplishmentIds: seq<string>)

  /** Reading a document: a missing id list reads as empty. */
  function ToInsight(id: string, doc: InsightDoc): (r: Insight)
    ensures r.id == id && r.timeframeType == doc.timeframeType && r.timeframeKey == doc.timeframeKey
    ensures r.content == doc.content && r.generatedAt == doc.generatedAt
    ensures r.accomplishmentCount == doc.accomplishmentCount
    ensures r.accomplishmentIds == if doc.accomplishmentIds.Some? then doc.accomplishmentIds.value else []
  {
    Insight(id, doc.timeframeType, doc.timeframeKey, doc.content, doc.generatedAt,
      doc.accomplishmentCount, doc.accomplishmentIds.GetOr([]))
  }

  /** The insight documents, keyed by (user id, document id). */
  type Insights = map<(string, string), InsightDoc>

  /** Every document sits under the id its own type and key give. */
  ghost predicate IdsConsistent(docs: Insights) {
    forall k :: k in docs ==> k.1 == InsightId(docs[k].timeframeType, docs[k].timeframeKey)
  }

  /** The query on `timeframeKey` and `timeframeType` with `limit(1)`,
      answered through the document id. */
  function FindInsight(docs: Insights, user: string, key: string, t: TimeframeType): Option<Insight> {
    var id := InsightId(t, key);
    if (user, id) in docs then Some(ToInsight(id, docs[(user, id)])) else None
  }

  /** Looking up by id answers the field query: a record is found exactly
      when the user has a document with that key and type, and the record
      found has them. */
  lemma FindInsightAnswersQuery(docs: Insights, user: string, key: string, t: TimeframeType)
    requires IdsConsistent(docs)
    ensures FindInsight(docs, user, key, t).Some? <==>
      exists id :: (user, id) in docs && docs[(user, id)].timeframeKey == key && docs[(user, id)].timeframeType == t
    ensures FindInsight(docs, user, key, t).Some? ==>
      FindInsight(docs, user, key, t).value.timeframeKey == key &&
      FindInsight(docs, user, key, t).value.timeframeType == t
  {
    var id := InsightId(t, key);
    if exists id' :: (user, id') in docs && docs[(user, id')].timeframeKey == key && docs[(user, id')].timeframeType == t {
      var id' :| (user, id') in docs && docs[(user, id')].timeframeKey == key && docs[(user, id')].timeframeType == t;
      assert id' == id;
    }
    if (user, id) in docs {
      var d := docs[(user, id)];
      InsightIdInjective(d.timeframeType, d.timeframeKey, t, key);
    }
  }

  /** The document `saveInsight` writes: the count is the id list's length
      and the ids are stored as passed. */
  function SavedDoc(key: string, t: TimeframeType, content: string, ids: seq<string>, at: int): (d: InsightDoc)
    ensures d.accomplishmentIds == Some(ids) && d.accomplishmentCount == |ids|
    ensures d.timeframeKey == key && d.timeframeType == t && d.content == content
  {
    InsightDoc(t, key, content, at, |ids|, Some(ids))
  }

  /** After a write, the pair written reads back as written; every other
      (user, key, type) reads as before. */
  lemma SaveThenFind(docs: Insights, user: string, key: string, t: TimeframeType,
                     content: string, ids: seq<string>, at: int,
                     user': string, key': string, t': TimeframeType)
    ensures var after := docs[(user, InsightId(t, key)) := SavedDoc(key, t, content, ids, at)];
      && FindInsight(after, user, key, t) == Some(Insight(InsightId(t, key), t, key, content, at, |ids|, ids))
      && ((user', key', t') != (user, key, t) ==> FindInsight(after, user', key', t') == FindInsight(docs, user', key', t'))
  {
    InsightIdInjective(t, key, t', key');
  }

  /** `userId || auth?.currentUser?.uid`: an empty id counts as none. */
  function ResolveUser(userId: Option<string>, authUid: Option<string>): (r: Option<string>)
    ensures r.Some? ==> r.value != ""
    ensures userId.Some? && userId.value != "" ==> r == userId
    ensures !(userId.Some? && userId.value != "") ==>
      r == (if authUid.Some? && authUid.value != "" then authUid else None)
  {
    if userId.Some? && userId.value != "" then userId
    else if authUid.Some? && authUid.value != "" then authUid
    else None
  }

  datatype StoreError =
    | NotLoggedIn   // "User must be logged in to save accomplishments"
    | WriteFailed   // the database call threw; rethrown to the caller

  class Store {
    /** `db` after module initialisation: set only when the configuration
        is real and initialisation did not throw. */
    const db: bool
    /** `auth?.currentUser?.uid`. */
    const authUid: Option<string>
    /** users/{uid}/insights, keyed by (uid, document id). */
    var insights: Insights
    /** users/{uid}/accomplishments, in the order they were added. */
    var entries: map<string, seq<Accomplishment>>
    /** The "accomplishments_local" item of browser storage; None when the
        item is absent. */
    var local: Option<seq<Accomplishment>>

    ghost predicate Valid()
      reads this
    {
      IdsConsistent(insights)
    }

    /** Module load: `db` and `auth` are set together, or
        both left null. */
    constructor (configured: bool, initSucceeds: bool, signedIn: Option<string>, stored: Option<seq<Accomplishment>>)
      ensures Valid()
      ensures db == (configured && initSucceeds)
      ensures authUid == if db then signedIn else None
      ensures insights == map[] && entries == map[] && local == stored
    {
      db := configured && initSucceeds;
      authUid := if configured && initSucceeds then signedIn else None;
      insights := map[];
      entries := map[];
      local := stored;
    }

    /** `saveAccomplishment`. With a database: fails without a user or when
        the write fails, otherwise adds the entry under the new document id.
        Without one: prepends the entry, its id the clock reading, to the
        locally stored list. */
    method SaveAccomplishment(text: string, rating: int, userId: Option<string>, now: Date,
                              clockMillis: int, newDocId: string, writeOk: bool)
      returns (r: Result<Accomplishment, StoreError>)
      requires Valid()
      modifies this
      ensures Valid() && insights == old(insights)
      ensures db ==> local == old(local)
      ensures db && ResolveUser(userId, authUid).None? ==> r == Failure(NotLoggedIn) && entries == old(entries)
      ensures db && ResolveUser(userId, authUid).Some? && !writeOk ==> r == Failure(WriteFailed) && entries == old(entries)
      ensures db && ResolveUser(userId, authUid).Some? && writeOk ==>
        var u := ResolveUser(userId, authUid).value;
        && r == Success(Accomplishment(newDocId, text, rating, now))
        && entries == old(entries)[u := (if u in old(entries) then old(entries)[u] else []) + [r.value]]
      ensures !db ==>
        && r == Success(Accomplishment(IntToString(clockMillis), text, rating, now))
        && local == Some([r.value] + old(local).GetOr([]))
        && entries == old(entries)
    {
      if db {
        var user := ResolveUser(userId, authUid);
        if user.None? {
          return Failure(NotLoggedIn);
        }
        if !writeOk {
          return Failure(WriteFailed);
        }
        var entry := Accomplishment(newDocId, text, rating, now);
        var existing := if user.value in entries then entries[user.value] else [];
        entries := entries[user.value := existing + [entry]];
        r := Success(entry);
      } else {
        var existing := if local.Some? then local.value else [];
        var entry := Accomplishment(IntToString(clockMillis), text, rating, now);
        local := Some([entry] + existing);
        r := Success(entry);
      }
    }

    /** `getAccomplishments`: with a database, the user's entries newest
        first, or [] with no user or a failed read; without one, the
        locally stored list, or [] when nothing is stored. */
    method GetAccomplishments(userId: Option<string>, readOk: bool) returns (r: seq<Accomplishment>)
      ensures db && (ResolveUser(userId, authUid).None? || !readOk) ==> r == []
      ensures db && ResolveUser(userId, authUid).Some? && readOk ==>
        var u := ResolveUser(userId, authUid).value;
        && multiset(r) == multiset(if u in entries then entries[u] else [])
        && SortedDesc(r, Millis)
      ensures !db && local.None? ==> r == []
      ensures !db && local.Some? ==> r == local.value
    {
      if db {
        var user := ResolveUser(userId, authUid);
        if user.None? || !readOk {
          return [];
        }
        var stored := if user.value in entries then entries[user.value] else [];
        SortDescPermutes(stored, Millis);
        SortDescSorted(stored, Millis);
        r := SortDesc(stored, Millis);
      } else {
        r := if local.Some? then local.value else [];
      }
    }

    /** `getInsight`: null without a database, without a user, on a failed
        read or when nothing matches; otherwise the user's record for that
        key and type. */
    method GetInsight(key: string, t: TimeframeType, userId: Option<string>, readOk: bool)
      returns (r: Option<Insight>)
      requires Valid()
      ensures !db || ResolveUser(userId, authUid).None? || !readOk ==> r == None
      ensures db && ResolveUser(userId, authUid).Some? && readOk ==>
        r == FindInsight(insights, ResolveUser(userId, authUid).value, key, t)
      ensures r.Some? ==> r.value.timeframeKey == key && r.value.timeframeType == t
    {
      if !db {
        return None;
      }
      var user := ResolveUser(userId, authUid);
      if user.None? || !readOk {
        return None;
      }
      FindInsightAnswersQuery(insights, user.value, key, t);
      r := FindInsight(insights, user.value, key, t);
    }

    /** `saveInsight`: overwrites the user's document `{type}_{key}`; null
        and no write without a database, without a user or when the write
        fails. The stored and the returned time are separate clock
        readings. */
    method SaveInsight(key: string, t: TimeframeType, content: string, ids: seq<string>,
                       userId: Option<string>, storedAt: int, returnedAt: int, writeOk: bool)
      returns (r: Option<Insight>)
      requires Valid()
      modifies this`insights
      ensures Valid()
      ensures !db || ResolveUser(userId, authUid).None? || !writeOk ==> r == None && insights == old(insights)
      ensures db && ResolveUser(userId, authUid).Some? && writeOk ==>
        var u := ResolveUser(userId, authUid).value;
        && insights == old(insights)[(u, InsightId(t, key)) := SavedDoc(key, t, content, ids, storedAt)]
        && r == Some(Insight(InsightId(t, key), t, key, content, returnedAt, |ids|, ids))
    {
      if !db {
        return None;
      }
      var user := ResolveUser(userId, authUid);
      if user.None? || !writeOk {
        return None;
      }
      var id := InsightId(t, key);
      insights := insights[(user.value, id) := SavedDoc(key, t, content, ids, storedAt)];
      r := Some(Insight(id, t, key, content, returnedAt, |ids|, ids));
    }
  }
}
