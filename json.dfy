/** The JSON values the scraper produces and the store serialises with `json.dumps`. */
module JsonData {
  import opened Wrappers

  /** A Python value that `json.dumps` accepts: `None`, a bool, an int, a float, a str, a list or
      a dict with str keys. */
  datatype Json =
    | JNull
    | JBool(b: bool)
    | JInt(i: int)
    | JNum(r: real)
    | JStr(s: string)
    | JArr(items: seq<Json>)
    | JObj(fields: map<string, Json>)

  function StrList(xs: seq<string>): (j: Json)
    ensures j.JArr? && |j.items| == |xs| && forall k :: 0 <= k < |xs| ==> j.items[k] == JStr(xs[k])
  {
    JArr(seq(|xs|, k requires 0 <= k < |xs| => JStr(xs[k])))
  }

  function StrMap(m: map<string, string>): (j: Json)
    ensures j.JObj? && j.fields.Keys == m.Keys && forall k :: k in m ==> j.fields[k] == JStr(m[k])
  {
    JObj(map k | k in m :: JStr(m[k]))
  }

  function StrListMap(m: map<string, seq<string>>): (j: Json)
    ensures j.JObj? && j.fields.Keys == m.Keys && forall k :: k in m ==> j.fields[k] == StrList(m[k])
  {
    JObj(map k | k in m :: StrList(m[k]))
  }

  function OptStr(o: Option<string>): Json {
    match o
    case None => JNull
    case Some(s) => JStr(s)
  }

  function OptNum(o: Option<real>): Json {
    match o
    case None => JNull
    case Some(r) => JNum(r)
  }
}
