# Session manager of `felconca/session-cookies-manager`, in Dafny

`Cookies\Session\SessionManager` is a thin object over PHP's session table
`$_SESSION`. The table maps a namespace name to that namespace's key-value data.
A manager is bound to one namespace and reads and writes only that namespace's
data: `set`, `get`, `has`, `remove`, `all` and `clear`. Its constructor merges
the caller's settings over the defaults, hands the resulting cookie settings to
the PHP session runtime, starts the session and creates its namespace when the
namespace is missing. `destroy` empties the whole table and, when the runtime
uses cookies, writes a cookie that makes the browser drop the session cookie.

The model has three modules:

- `SessionData` (`session_data.dfy`): the values PHP stores (`Value`, with
  `Null` so that `isset` can be stated), the table as
  `map<string, map<string, Value>>`, and each table update as a pure function
  (`Store`, `Unset`, `ClearNamespace`, `EnsureNamespace`). Each function's
  contract says what changes and that nothing else does. `Run` applies a
  sequence of calls made through one manager. Lemmas proved by induction over
  such sequences state last-write-wins, isolation between namespaces and that a
  namespace, once present, stays present.
- `SessionConfig` (`session_config.dfy`): the defaults, `array_merge` on string
  keys, the cookie settings asked of the runtime, and the invalidation cookie.
- `Session` (`session_manager.dfy`): the class `SessionTable`, standing for the
  request's one `$_SESSION`, and the class `SessionManager`. Its methods update
  the shared table in place. Several managers may share one table object, as all
  managers of a PHP request share `$_SESSION`. Two client methods show, through
  that aliasing, that one manager's write is invisible to another namespace,
  and what a manager sees after `destroy`.

Behaviour of the PHP code that the model keeps:

- `set` after `destroy` recreates the namespace, as PHP autovivification does.
- `remove` on a missing namespace or key changes nothing and creates nothing.
- `all` after `destroy` yields PHP's `null` (here `None`).
- A key stored with value `null` is absent for `get` and `has` (`isset`), yet
  `all` still lists it.

What the code does not do:

- It has no idle timeout, no last-activity tracking and no "touch" on access.
- It does not validate settings. A `samesite` of `None` without `secure` is
  accepted as given.

The default session cookie name is `PHPSESSID`.

## Model

| member | source | states |
|---|---|---|
| SessionData.Store | src/SessionManager.php:80-83 | the key then holds exactly the written value; other keys of the namespace and every other namespace are unchanged; the namespace exists afterwards |
| SessionData.Unset | src/SessionManager.php:113-116 | the key is then absent (and not `isset`); other keys and other namespaces are unchanged; no namespace is created; removing an absent key leaves the table as it was |
| SessionData.ClearNamespace | src/SessionManager.php:131-134 | the namespace exists and is empty afterwards, every key reads as absent, other namespaces are unchanged |
| SessionData.EnsureNamespace | src/SessionManager.php:30-32 | the namespace exists afterwards; an existing namespace keeps its data (the table is unchanged); a missing one is created empty; other namespaces are unchanged |
| SessionData.SetThenGet | src/SessionManager.php:80-106 | after a write, `has` holds exactly when the value is non-null, and `get` returns the value when it is non-null and the default otherwise |
| SessionData.LastWriteWins | src/SessionManager.php:80-83 | a second write to the same key gives the same table as the second write alone |
| SessionData.ClearIdempotent | src/SessionManager.php:131-134 | clearing twice is the same as clearing once |
| SessionData.EnsureNamespaceIdempotent | src/SessionManager.php:30-32 | building a second manager on the same namespace leaves the table as the first one left it |
| SessionData.RunEntry | src/SessionManager.php:80-134 | after any sequence of set, remove and clear calls, a key's entry is the one the last call touching it decided (written value, or absent after a remove or clear), or the original entry when no call touched it |
| SessionData.RunGet | src/SessionManager.php:92-95 | after any sequence of calls, `get` returns the last value written to the key when it was non-null, the default after a null write, remove or clear, and the original answer when no call touched the key |
| SessionData.RunIsolation | src/SessionManager.php:80-134 | no sequence of set, remove and clear calls through one manager changes any other namespace |
| SessionData.RunKeepsNamespace | src/SessionManager.php:113-134 | once the namespace exists, no sequence of set, remove and clear calls removes it |
| SessionConfig.Merge | src/SessionManager.php:17-25 | the merged configuration has the keys of both maps; every caller setting overrides the default; defaults fill every other key |
| SessionConfig.MergedSettings | src/SessionManager.php:17-25 | a manager's configuration holds all seven settings; each is the caller's if given, else lifetime 1800, path "/", domain "", secure from HTTPS, httponly true, samesite "Lax", name "PHPSESSID" |
| SessionConfig.RequestedFromCaller | src/SessionManager.php:38-51 | the session name and cookie parameters asked of the runtime (`RequestedSettings`) are each the caller's setting when given, else the default |
| SessionConfig.InvalidationCookie | src/SessionManager.php:152-163 | the invalidation cookie has an empty value, an expiry strictly before now, the session name, and the runtime's path, domain, secure and httponly |
| SessionConfig.DefaultInvalidationCookie | src/SessionManager.php:149-163 | for a manager built without overrides whose settings the runtime took over, `destroy` writes `PHPSESSID` with empty value, expiry now - 42000, path "/", domain "", secure from HTTPS, httponly |
| SessionConfig.InvalidationMatchesConfig | src/SessionManager.php:38-51 | when the runtime took over the manager's settings, the invalidation cookie matches the configured name, path, domain, secure and httponly |
| Session.SessionManager.constructor | src/SessionManager.php:14-33 | binds the namespace ("default" unless given) and the shared table; the configuration is the merge of defaults and caller settings (none unless given); the table gains an empty namespace only when it is absent |
| Session.SessionManager.Set | src/SessionManager.php:80-83 | the table becomes `Store` of the old table under the bound namespace |
| Session.SessionManager.Get | src/SessionManager.php:92-95 | returns the stored value when the key is present and non-null, else the default (null unless given); changes nothing |
| Session.SessionManager.Has | src/SessionManager.php:103-106 | true exactly when the key is present in the bound namespace with a non-null value; changes nothing |
| Session.SessionManager.Remove | src/SessionManager.php:113-116 | the table becomes `Unset` of the old table under the bound namespace |
| Session.SessionManager.All | src/SessionManager.php:123-126 | returns the bound namespace's data; null when the namespace is gone; changes nothing |
| Session.SessionManager.Clear | src/SessionManager.php:131-134 | the table becomes `ClearNamespace` of the old table under the bound namespace |
| Session.SessionManager.Destroy | src/SessionManager.php:149-165 | the table becomes empty for every namespace; with cookies in use it returns the invalidation cookie, otherwise no cookie |
| Session.NamespacesDoNotInterfere | src/SessionManager.php:80-95 | any two managers with different namespaces and any settings on one table: the writer reads its value back, and the other namespace still reads what the table held before |
| Session.ReadAfterDestroy | src/SessionManager.php:80-165 | after `destroy`, `get` returns the default and `all` returns null; a later `set` recreates the namespace with just that key |

## Left out

- The PHP session runtime is not modelled: `session_name`, `session_set_cookie_params`, `session_status`, `session_start`, `session_get_cookie_params`, `ini_get`, `setcookie` and `session_destroy`. The model exposes the settings it asks for (`RequestedSettings`). `Destroy` takes the runtime's answers as parameters: whether cookies are used, the session name, the cookie parameters and the current time.
- The `PHP_VERSION_ID` branch (src/SessionManager.php:43-61) is not modelled. It only chooses between two calling conventions of `session_set_cookie_params`. `samesite` is modelled as always passed, as on PHP 7.3 and later.
- HTTPS detection from `$_SERVER` (src/SessionManager.php:21) is not modelled. It is the constructor parameter `https`.
- `regenerate` (src/SessionManager.php:141-144) is not modelled. It only forwards to `session_regenerate_id` and does not touch the table.
- `session_start` guarded by `session_status` (src/SessionManager.php:67-72) is not modelled. The table handed to the constructor is `$_SESSION` as the runtime loaded it.
- The session store is not modelled: persisting the table between requests, and locking between concurrent requests.
- PHP's integer-like string keys are not modelled. PHP turns such keys into integers, and `array_merge` renumbers integer keys of the caller's settings instead of letting them override. The model treats every key as a distinct string.
- A non-array value stored directly at namespace level by other code is not modelled. The table's entries are always key-value maps.
- Floats and objects among stored values are not modelled. `Value` covers null, booleans, integers, strings and nested arrays.
- The order of keys in PHP arrays is not modelled. Maps are unordered, so `all` gives the data but not its insertion order.
- PHP warnings and notices are not modelled. For example, PHP warns about an undefined array key when `all` reads a namespace that is gone (src/SessionManager.php:125). The model returns `None` without a warning.
