/** A string state kept in one URL query parameter. Parameters are a map
    from key to a single value. */
module SearchParams {

  /** `searchParams.get(key) ?? defaultValue` */
  function ReadParam(params: map<string, string>, key: string, defaultValue: string): (r: string)
    ensures key in params ==> r == params[key]
    ensures key !in params ==> r == defaultValue
  {
    if key in params then params[key] else defaultValue
  }

  /** `setValue`: a non-empty value is stored under the key, an empty one
      deletes the key; every other key keeps its value. */
  function SetValue(params: map<string, string>, key: string, next: string): (r: map<string, string>)
    ensures next != "" ==> key in r && r[key] == next
    ensures next == "" ==> key !in r
    ensures forall k :: k != key ==> (k in r <==> k in params)
    ensures forall k :: k != key && k in params ==> r[k] == params[k]
  {
    if next != "" then params[key := next] else params - {key}
  }

  /** Reading back after `setValue` gives the value set, or the default
      when it was cleared. */
  lemma ReadAfterSet(params: map<string, string>, key: string, next: string, defaultValue: string)
    ensures ReadParam(SetValue(params, key, next), key, defaultValue) == if next != "" then next else defaultValue
  {
  }

  /** Setting a value and then clearing it leaves the other keys exactly as
      before. */
  lemma SetThenClear(params: map<string, string>, key: string, next: string)
    ensures SetValue(SetValue(params, key, next), key, "") == params - {key}
  {
  }
}
