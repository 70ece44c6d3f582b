/** The JSON values the bridge writes, one object per output line.

    Objects are maps: the order in which an encoder writes the keys carries no
    meaning for the reader, so it is not modelled. */
module Json {
  import opened Wrappers

  datatype Json =
    | JStr(str: string)
    | JBool(flag: bool)
    | JObj(fields: map<string, Json>)

  /** The string stored under `key` in an object, if there is one */
  function StrField(j: Json, key: string): Option<string> {
    if j.JObj? && key in j.fields && j.fields[key].JStr? then Some(j.fields[key].str) else None
  }

  /** The boolean stored under `key` in an object, if there is one */
  function BoolField(j: Json, key: string): Option<bool> {
    if j.JObj? && key in j.fields && j.fields[key].JBool? then Some(j.fields[key].flag) else None
  }
}
