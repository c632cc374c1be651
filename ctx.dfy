/**
 * Request-scoped storage (Go's `context.Context`): an association from keys to
 * values, where deriving a child context never changes the parent. Each
 * component owns an unexported key type, so the keys of the request-id and
 * logger middleware are distinct constructors that no other code can forge.
 */
module Ctx {
  import opened Logging

  datatype Key = RequestIdKey | LoggerKey | ForeignKey(name: string)

  /** What a context can hold under a key, tagged with its dynamic type. */
  datatype Stored = StoredString(s: string) | StoredLogger(logger: Logger) | StoredOther(description: string)

  type Context = map<Key, Stored>

  /** `context.Background()`: the empty context. */
  const Background: Context := map[]

  /** `context.WithValue(parent, k, v)`: a child that sees `v` under `k` and the parent's values elsewhere. */
  function WithValue(parent: Context, k: Key, v: Stored): (c: Context)
    ensures k in c && c[k] == v
    ensures forall k' :: k' != k ==> (k' in c <==> k' in parent)
    ensures forall k' :: k' != k && k' in parent ==> c[k'] == parent[k']
  {
    parent[k := v]
  }
}
