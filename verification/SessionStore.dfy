/** The session cache, the session objects and the store through which requests use them. */
module SessionStore {
  import opened Wrappers
  import opened Sessions

  class MemCache {
    var sessions: Entries

    constructor ()
      ensures sessions == map[]
    {
      sessions := map[];
    }

    method GetSessionUse(id: string)
      modifies this
      ensures sessions == Use(old(sessions), id)
    {
      if id != "" && id in sessions {
        sessions := sessions[id := sessions[id].(uses := sessions[id].uses + 1)];
      }
    }

    /**
     `GetSessionUseByID`: a copy of the values of a session that may be opened, with its use counted. It panics
     when the values cannot be copied.
     */
    method GetSessionUseByID(id: string, copied: bool) returns (values: Option<Values>, panicked: bool)
      modifies this
      ensures panicked <==> Openable(old(sessions), id).Some? && !copied
      ensures values == if panicked then None else Openable(old(sessions), id)
      ensures sessions == if Openable(old(sessions), id).Some? then Use(old(sessions), id) else old(sessions)
    {
      if id == "" || id !in sessions {
        return None, false;
      }
      var info := sessions[id];
      if info.destroy {
        return None, false;
      }
      sessions := sessions[id := info.(uses := info.uses + 1)];
      if !copied {
        return None, true;
      }
      return Some(info.values), false;
    }

    method PutSessionUse(id: string) returns (panicked: bool)
      modifies this
      ensures panicked <==> PutBack(old(sessions), id).None?
      ensures sessions == if panicked then old(sessions) else PutBack(old(sessions), id).value
    {
      if id == "" || id !in sessions {
        return false;
      }
      var info := sessions[id];
      if info.uses == 0 {
        return true;
      }
      info := info.(uses := info.uses - 1);
      sessions := sessions[id := info];
      if info.destroy && info.uses == 0 {
        sessions := sessions - {id};
      }
      return false;
    }

    method MarkOrDestroySessionByID(id: string)
      modifies this
      ensures sessions == MarkOrDestroy(old(sessions), id)
    {
      if id == "" || id !in sessions {
        return;
      }
      if sessions[id].uses > 0 {
        sessions := sessions[id := sessions[id].(destroy := true)];
      } else {
        sessions := sessions - {id};
      }
    }

    method MarkSession(id: string)
      modifies this
      ensures sessions == MarkEntry(old(sessions), id)
    {
      if id != "" && id in sessions {
        sessions := sessions[id := sessions[id].(destroy := true)];
      }
    }

    /** `SaveSession`; it sets the id of the session object on the first save. */
    method SaveSession(session: Session, newId: string, copied: bool) returns (marked: bool, ok: bool)
      modifies this, session`id
      ensures Saved(sessions, session.id, marked, ok)
              == SaveEntry(old(sessions), old(session.id), session.values, newId, copied)
    {
      if session.id in sessions {
        var info := sessions[session.id];
        if info.destroy {
          return true, true;
        }
        if !copied {
          return false, false;
        }
        sessions := sessions[session.id := info.(values := session.values)];
      } else {
        session.id := newId;
        if !copied {
          return false, false;
        }
        sessions := sessions[newId := Info(session.values, 1, false)];
      }
      return false, true;
    }
  }

  const MAX_AGE := 86400 * 30

  /** The cookie of a response: the session id, or an empty and expired cookie. */
  datatype Cookie = Cookie(value: string, maxAge: int)

  class Session {
    const cache: MemCache
    var id: string
    var values: Values
    var marked: bool

    constructor (cache: MemCache, id: string, values: Values)
      ensures this.cache == cache && this.id == id && this.values == values && !marked
    {
      this.cache, this.id, this.values, marked := cache, id, values, false;
    }

    method Set(key: string, value: string)
      modifies this`values
      ensures values == old(values)[key := value]
    {
      values := values[key := value];
    }

    method Drop(key: string)
      modifies this`values
      ensures values == old(values) - {key}
    {
      values := values - {key};
    }

    /**
     `Save`. A session that is marked, here or in the cache, is not stored and its cookie expires. Nothing
     is written to the response when copying or encoding fails.
     */
    method Save(newId: string, copied: bool, encodes: bool) returns (cookie: Option<Cookie>)
      modifies this`id, this`marked, cache
      ensures var saved := SaveEntry(old(cache.sessions), old(id), values, newId, copied);
              if old(marked) then
                marked && id == old(id) && cache.sessions == old(cache.sessions) && cookie == Some(Cookie("", -1))
              else
                && marked == saved.marked && id == saved.id && cache.sessions == saved.entries
                && cookie == if !saved.ok then None
                             else if saved.marked then Some(Cookie("", -1))
                             else if encodes then Some(Cookie(saved.id, MAX_AGE)) else None
    {
      if !marked {
        var ok;
        marked, ok := cache.SaveSession(this, newId, copied);
        if !ok {
          return None;
        }
      }
      var maxAge := MAX_AGE;
      var value := "";
      if marked {
        maxAge := -1;
      } else {
        if !encodes {
          return None;
        }
        value := id;
      }
      return Some(Cookie(value, maxAge));
    }

    method Mark()
      modifies this`marked, cache
      ensures marked && cache.sessions == MarkEntry(old(cache.sessions), id)
    {
      marked := true;
      cache.MarkSession(id);
    }
  }

  class Store {
    const cache: MemCache

    constructor (cache: MemCache)
      ensures this.cache == cache
    {
      this.cache := cache;
    }

    method MarkOrDestroySessionByID(id: string)
      modifies cache
      ensures cache.sessions == MarkOrDestroy(old(cache.sessions), id)
    {
      cache.MarkOrDestroySessionByID(id);
    }

    /** `GetSessionUse`: the session of the context, else the one the cookie names, else a new one without id. */
    method GetSessionUse(context: Option<Session>, cookie: Option<string>, copied: bool)
      returns (session: Session, panicked: bool)
      modifies cache
      ensures panicked <==>
              context.None? && cookie.Some? && Openable(old(cache.sessions), cookie.value).Some? && !copied
      ensures context.Some? ==> session == context.value && cache.sessions == Use(old(cache.sessions), session.id)
      ensures context.None? ==> fresh(session) && session.cache == cache && !session.marked
      ensures context.None? && cookie.Some? && Openable(old(cache.sessions), cookie.value).Some? && copied ==>
                && session.id == cookie.value && session.values == Openable(old(cache.sessions), cookie.value).value
                && cache.sessions == Use(old(cache.sessions), cookie.value)
      ensures context.None? && (cookie.Some? ==> Openable(old(cache.sessions), cookie.value).None?) ==>
                session.id == "" && session.values == map[] && cache.sessions == old(cache.sessions)
    {
      if context.Some? {
        cache.GetSessionUse(context.value.id);
        return context.value, false;
      }
      panicked := false;
      if cookie.Some? {
        var values;
        values, panicked := cache.GetSessionUseByID(cookie.value, copied);
        if panicked {
          session := new Session(cache, "", map[]);
          return;
        }
        if values.Some? {
          session := new Session(cache, cookie.value, values.value);
          return;
        }
      }
      session := new Session(cache, "", map[]);
      cache.GetSessionUse(session.id);
    }

    method PutSessionUse(session: Session) returns (panicked: bool)
      modifies cache
      ensures panicked <==> PutBack(old(cache.sessions), session.id).None?
      ensures !panicked ==> cache.sessions == PutBack(old(cache.sessions), session.id).value
    {
      panicked := cache.PutSessionUse(session.id);
    }
  }
}
