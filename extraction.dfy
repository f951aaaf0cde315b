/** How the translator finds the translated rows in the model's JSON reply
    (app/services/translator.py, the parsing block of `_translate_json_data`). */
module ResponseExtraction {
  import opened Wrappers
  import opened Json

  /** The only way extraction fails: what was found is not a JSON array. */
  datatype ExtractError = NotAnArray

  /** `key` names a list other than the `rules` list: a candidate of the fallback search. */
  predicate IsRowList(fields: Row, key: string) {
    key != "rules" && Get(fields, key).Some? && Get(fields, key).value.JArray?
  }

  /** The position, among `keys`, of the first key that names a candidate list. */
  function FirstRowList(fields: Row, keys: seq<string>): (r: Option<nat>)
    ensures r.Some? ==> r.value < |keys| && IsRowList(fields, keys[r.value])
    ensures r.Some? ==> forall j :: 0 <= j < r.value ==> !IsRowList(fields, keys[j])
    ensures r.None? ==> forall j :: 0 <= j < |keys| ==> !IsRowList(fields, keys[j])
  {
    if |keys| == 0 then None
    else if IsRowList(fields, keys[0]) then Some(0)
    else match FirstRowList(fields, keys[1..])
      case None => None
      case Some(i) => Some(i + 1)
  }

  /** The rows of a reply: a top-level array as it is; in an object, the `input_data` list if
      there is one, otherwise the first list-valued key in key order other than `rules`. The
      number of rows found is not checked against the number sent. */
  function ExtractRows(reply: Json): (r: Result<seq<Json>, ExtractError>)
    ensures reply.JArray? ==> r == Ok(reply.items)
    ensures reply.JObject? && Get(reply.fields, "input_data").Some? && Get(reply.fields, "input_data").value.JArray?
      ==> r == Ok(Get(reply.fields, "input_data").value.items)
    ensures r.Ok? && reply.JObject? ==>
      (exists k :: k in Keys(reply.fields) && IsRowList(reply.fields, k) && Get(reply.fields, k).value.items == r.value)
    ensures (reply.JObject? && r.Ok?
             && !(Get(reply.fields, "input_data").Some? && Get(reply.fields, "input_data").value.JArray?)) ==>
      exists i :: 0 <= i < |Keys(reply.fields)| && IsRowList(reply.fields, Keys(reply.fields)[i])
        && (forall j :: 0 <= j < i ==> !IsRowList(reply.fields, Keys(reply.fields)[j]))
        && r.value == Get(reply.fields, Keys(reply.fields)[i]).value.items
    ensures r.Err? <==> !reply.JArray? && !(reply.JObject? && exists k :: k in Keys(reply.fields) && IsRowList(reply.fields, k))
  {
    match reply
    case JArray(items) => Ok(items)
    case JObject(fields) =>
      var inputData := Get(fields, "input_data");
      if inputData.Some? && inputData.value.JArray? then
        assert IsRowList(fields, "input_data");
        Ok(inputData.value.items)
      else
        (match FirstRowList(fields, Keys(fields))
         case Some(i) => Ok(Get(fields, Keys(fields)[i]).value.items)
         case None =>
           assert forall k :: k in Keys(fields) ==> !IsRowList(fields, k);
           Err(NotAnArray))
    case _ => Err(NotAnArray)
  }
}
