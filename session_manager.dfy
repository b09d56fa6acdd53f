/**
 The session manager of `Cookies\Session`: a handle bound to one namespace of
 the shared session table. Several managers may share one table, as every
 manager in a PHP request shares `$_SESSION`; each call changes at most its own
 namespace, except `Destroy`, which empties the whole table.
 */
module Session {
  import opened SessionData
  import opened SessionConfig

  /** The request's `$_SESSION`, as the session runtime loaded it. */
  class SessionTable {
    var data: Table

    constructor (loaded: Table)
      ensures data == loaded
    {
      data := loaded;
    }
  }

  class SessionManager {
    const namespace: string
    const config: Config
    const session: SessionTable

    /**
     Binds the manager to `namespace`, merges the caller's settings over the
     defaults, and creates the namespace in the table when it is absent.
     `https` stands for the request's HTTPS status, which decides the default
     of `secure`. As in PHP, the namespace defaults to "default" and the
     caller's settings to none.
     */
    constructor (session: SessionTable, https: bool, namespace: string := "default", caller: Config := map[])
      modifies session
      ensures this.session == session && this.namespace == namespace
      ensures config == Merge(Defaults(https), caller)
      ensures SETTING_NAMES <= config.Keys
      ensures session.data == EnsureNamespace(old(session.data), namespace)
    {
      this.namespace := namespace;
      this.config := Merge(Defaults(https), caller);
      this.session := session;
      new;
      MergedSettings(https, caller);
      if namespace !in session.data {
        session.data := session.data[namespace := map[]];
      }
    }

    /** Stores `value` under `key` in this namespace, replacing any earlier value. */
    method Set(key: string, value: Value)
      modifies session
      ensures session.data == Store(old(session.data), namespace, key, value)
    {
      session.data := Store(session.data, namespace, key, value);
    }

    /** The value under `key`, or `default` (null unless given) when the key is missing or holds null. */
    method Get(key: string, default: Value := Null) returns (v: Value)
      ensures Isset(session.data, namespace, key) ==> v == session.data[namespace][key]
      ensures !Isset(session.data, namespace, key) ==> v == default
    {
      if namespace in session.data && key in session.data[namespace] && session.data[namespace][key] != Null {
        v := session.data[namespace][key];
      } else {
        v := default;
      }
    }

    /** Whether `key` holds a non-null value in this namespace. */
    method Has(key: string) returns (b: bool)
      ensures b <==> namespace in session.data && key in session.data[namespace]
                     && session.data[namespace][key] != Null
    {
      b := Isset(session.data, namespace, key);
    }

    /** Drops `key` from this namespace; nothing happens when it is missing. */
    method Remove(key: string)
      modifies session
      ensures session.data == Unset(old(session.data), namespace, key)
    {
      session.data := Unset(session.data, namespace, key);
    }

    /** This namespace's data; None (PHP's null) once the table no longer holds the namespace. */
    method All() returns (m: Option<Bag>)
      ensures namespace in session.data ==> m == Some(session.data[namespace])
      ensures namespace !in session.data ==> m == None
    {
      if namespace in session.data {
        m := Some(session.data[namespace]);
      } else {
        m := None;
      }
    }

    /** Empties this namespace and no other. */
    method Clear()
      modifies session
      ensures session.data == ClearNamespace(old(session.data), namespace)
    {
      session.data := ClearNamespace(session.data, namespace);
    }

    /**
     Empties the whole table. When the runtime uses cookies, also returns the
     cookie that invalidates the session cookie; `name` and `params` are what
     the runtime reports as the session name and cookie parameters, `now` the
     current time in seconds.
     */
    method Destroy(useCookies: bool, name: string, params: CookieParams, now: int)
      returns (cookie: Option<CookieWrite>)
      modifies session
      ensures session.data == map[]
      ensures cookie == if useCookies then Some(InvalidationCookie(name, params, now)) else None
    {
      session.data := map[];
      if useCookies {
        cookie := Some(InvalidationCookie(name, params, now));
      } else {
        cookie := None;
      }
    }
  }

  /**
   Two managers over one table, bound to different namespaces: a write through
   the first is read back there, and a read of the same key through the second
   sees only what the table held before.
   */
  method NamespacesDoNotInterfere(
    loaded: Table, a: string, b: string, configA: Config, configB: Config, https: bool,
    key: string, value: Value)
    returns (seen: Value, own: Value)
    requires a != b
    ensures seen == GetOr(loaded, b, key, Null)
    ensures own == value
  {
    var table := new SessionTable(loaded);
    var first := new SessionManager(table, https, a, configA);
    var second := new SessionManager(table, https, b, configB);
    first.Set(key, value);
    seen := second.Get(key);
    own := first.Get(key);
  }

  /**
   After `Destroy`, a manager built before it reads every key as the default and
   finds its namespace gone; a write then recreates the namespace.
   */
  method ReadAfterDestroy(loaded: Table, key: string, default: Value, value: Value)
    returns (v: Value, data: Option<Bag>, again: Option<Bag>)
    ensures v == default
    ensures data == None
    ensures again == Some(map[key := value])
  {
    var table := new SessionTable(loaded);
    var m := new SessionManager(table, true);
    m.Set(key, value);
    var _ := m.Destroy(true, "PHPSESSID", CookieParams(1800, "/", "", true, true, "Lax"), 1000);
    v := m.Get(key, default);
    data := m.All();
    m.Set(key, value);
    again := m.All();
  }
}
