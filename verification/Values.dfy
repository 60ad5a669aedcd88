/** Values shared by every component: optional values, results and JSON documents. */
module Values {
  datatype Option<+T> = None | Some(value: T)

  datatype Result<+T, +E> = Ok(value: T) | Err(error: E)

  /** What a JSON column or request body can hold. */
  datatype Json =
    | JNull
    | JBool(flag: bool)
    | JInt(n: int)
    | JReal(r: real)
    | JText(text: string)
    | JList(items: seq<Json>)
    | JObject(members: map<string, Json>)

  /** Removing one key less from a map puts that key back. */
  lemma RemoveLess<K, V>(m: map<K, V>, more: set<K>, less: set<K>, k: K)
    requires more == less + {k} && k !in less
    ensures m - less == if k in m then (m - more)[k := m[k]] else m - more
  {
  }
}
