/**
 * Session storage (backend/src/services/session_store.py): the in-memory store with its record
 * and timestamp dictionaries, the Redis key scheme, and the process-wide store choice.  Clock
 * readings are passed in as `now`.
 */
module SessionStore {
  import opened Wrappers
  import opened Consts

  class InMemorySessionStore {
    var sessions: map<string, SessionRecord>
    var timestamps: map<string, int>

    /** Every stored record has a timestamp and vice versa, and no record is an empty dict. */
    ghost predicate Valid()
      reads this
    {
      sessions.Keys == timestamps.Keys && forall id :: id in sessions ==> !sessions[id].IsEmpty()
    }

    constructor ()
      ensures Valid() && sessions == map[] && timestamps == map[]
    {
      sessions := map[];
      timestamps := map[];
    }

    /** The session `get` returns: absent for an unknown id or an empty record. */
    function Lookup(id: string): (r: Option<SessionData>)
      reads this
      ensures Valid() ==> (r.Some? <==> id in sessions)
      ensures r.Some? ==> id in sessions && r.value == Deserialize(sessions[id]) && r.value.conversation == []
    {
      if id in sessions && !sessions[id].IsEmpty() then Some(Deserialize(sessions[id])) else None
    }

    /** `save`: the record is overwritten; the timestamp is set only on the first save. */
    method Save(session: DiagnosisSession, now: int)
      requires Valid()
      modifies this
      ensures Valid()
      ensures sessions == old(sessions)[session.sessionId := Serialize(session.Snapshot())]
      ensures timestamps == if session.sessionId in old(timestamps) then old(timestamps)
                            else old(timestamps)[session.sessionId := now]
    {
      if session.sessionId !in timestamps {
        timestamps := timestamps[session.sessionId := now];
      }
      sessions := sessions[session.sessionId := session.ToDict()];
    }

    /** `get`: a new session object rebuilt from the stored record. */
    method Get(id: string) returns (s: Option<DiagnosisSession>)
      ensures s.None? <==> Lookup(id).None?
      ensures s.Some? ==> fresh(s.value) && s.value.Snapshot() == Lookup(id).value
    {
      if id !in sessions || sessions[id].IsEmpty() {
        return None;
      }
      var session := DiagnosisSession.FromDict(sessions[id]);
      return Some(session);
    }

    /** `delete`: true exactly when the id was stored; the record and its timestamp go. */
    method Delete(id: string) returns (deleted: bool)
      requires Valid()
      modifies this
      ensures Valid()
      ensures deleted <==> id in old(sessions)
      ensures sessions == old(sessions) - {id}
      ensures timestamps == if deleted then old(timestamps) - {id} else old(timestamps)
    {
      if id in sessions {
        sessions := sessions - {id};
        if id in timestamps {
          timestamps := timestamps - {id};
        }
        return true;
      }
      return false;
    }

    /** `get_created_at`: the first save's time, or the current time for an unknown id. */
    function GetCreatedAt(id: string, now: int): (t: int)
      reads this
      ensures id in timestamps ==> t == timestamps[id]
      ensures id !in timestamps ==> t == now
    {
      if id in timestamps then timestamps[id] else now
    }
  }

  /** Saving again keeps the first timestamp and replaces the record. */
  method SaveTwiceKeepsCreationTime(store: InMemorySessionStore, session: DiagnosisSession, first: int, later: int)
    requires store.Valid() && session.sessionId !in store.sessions
    modifies store
    ensures store.Valid()
    ensures store.GetCreatedAt(session.sessionId, later) == first
    ensures store.Lookup(session.sessionId) == Some(Deserialize(Serialize(session.Snapshot())))
  {
    store.Save(session, first);
    store.Save(session, later);
  }

  /** After `delete(id)`, `get(id)` finds nothing and a second `delete(id)` reports false. */
  method DeleteIsFinal(store: InMemorySessionStore, id: string) returns (found: Option<DiagnosisSession>, again: bool)
    requires store.Valid()
    modifies store
    ensures store.Valid() && found.None? && !again
    ensures store.sessions == old(store.sessions) - {id}
  {
    var _ := store.Delete(id);
    found := store.Get(id);
    again := store.Delete(id);
  }

  /** The Redis-backed store; only its key scheme is modelled. */
  class RedisSessionStore {
    const redisUrl: string
    const ttl: int

    constructor (redisUrl: string, ttl: int)
      ensures this.redisUrl == redisUrl && this.ttl == ttl
    {
      this.redisUrl := redisUrl;
      this.ttl := ttl;
    }

    /** `_session_key` */
    static function SessionKey(id: string): string {
      "docjarvis:session:" + id
    }

    /** `_timestamp_key` */
    static function TimestampKey(id: string): string {
      "docjarvis:session:" + id + ":created"
    }

    /** The two keys of one session never coincide, and each key names one session. */
    static lemma KeysAreDistinct(id: string, other: string)
      ensures SessionKey(id) != TimestampKey(id)
      ensures SessionKey(id) == SessionKey(other) ==> id == other
      ensures TimestampKey(id) == TimestampKey(other) ==> id == other
    {
      var p := "docjarvis:session:";
      assert |SessionKey(id)| < |TimestampKey(id)|;
      if SessionKey(id) == SessionKey(other) {
        assert id == SessionKey(id)[|p|..];
        assert other == SessionKey(other)[|p|..];
      }
      if TimestampKey(id) == TimestampKey(other) {
        assert id == TimestampKey(id)[|p|..|TimestampKey(id)| - 8];
        assert other == TimestampKey(other)[|p|..|TimestampKey(other)| - 8];
      }
    }

    /** Across sessions the scheme is not collision-free: one id's record key is another's timestamp key. */
    static lemma KeysCanCollideAcrossSessions()
      ensures SessionKey("x:created") == TimestampKey("x")
    {
    }
  }

  datatype StoreKind = InMemoryKind | RedisKind

  /** The store `get_session_store` picks, as written: it compares with 'production'. */
  function StoreKindAsWritten(env: Environment): StoreKind {
    if env.Value() == "production" then RedisKind else InMemoryKind
  }

  /** No environment value is 'production', so the as-written choice is always the in-memory store. */
  lemma AsWrittenNeverPicksRedis(env: Environment)
    ensures StoreKindAsWritten(env) == InMemoryKind
  {
  }

  /** The intended choice: Redis in the production environment, memory elsewhere. */
  function StoreKindFor(env: Environment): (kind: StoreKind)
    ensures kind == RedisKind <==> env.Value() == Prod.Value()
  {
    if env == Prod then RedisKind else InMemoryKind
  }

  datatype StoreHandle = Memory(memory: InMemorySessionStore) | Redis(redis: RedisSessionStore) {
    function Kind(): StoreKind {
      if Memory? then InMemoryKind else RedisKind
    }
  }

  /** The module-level `_store` singleton. */
  class StoreRegistry {
    var current: Option<StoreHandle>

    constructor ()
      ensures current == None
    {
      current := None;
    }

    /**
     * `get_session_store` with the corrected environment test (Redis for PROD): builds a store on
     * the first call and returns that same store afterwards.
     */
    method GetSessionStore(env: Environment, redisUrl: string, ttl: int) returns (s: StoreHandle)
      modifies this
      ensures old(current).Some? ==> s == old(current).value && current == old(current)
      ensures old(current).None? ==> current == Some(s) && s.Kind() == StoreKindFor(env)
      ensures old(current).None? && s.Memory? ==> fresh(s.memory) && s.memory.Valid() && s.memory.sessions == map[]
    {
      if current.None? {
        if StoreKindFor(env) == RedisKind {
          var r := new RedisSessionStore(redisUrl, ttl);
          current := Some(Redis(r));
        } else {
          var m := new InMemorySessionStore();
          current := Some(Memory(m));
        }
      }
      s := current.value;
    }
  }
}
