/** The structured user prompt sent with every model call, and the table of language codes
    offered to the user (app/core/prompts.py). */
module Prompts {
  import opened Wrappers
  import opened Json

  /** The seven fixed translation rules, in prompt order. */
  const Rules: seq<string> := [
    "Translate ONLY the text values in each object",
    "Keep all keys (field names) in English unchanged",
    "Keep numbers, dates, URLs, and special characters unchanged",
    "Preserve empty or null values as-is",
    "Maintain the exact same array length and structure",
    "Do not add, remove, or reorder any objects",
    "Do not add explanations or metadata"
  ]

  const OutputDescription: string :=
    "Return a JSON array with the same structure as input_data, but with text values translated"

  function Strings(ss: seq<string>): (js: seq<Json>)
    ensures |js| == |ss|
    ensures forall i :: 0 <= i < |ss| ==> js[i] == JString(ss[i])
  {
    seq(|ss|, i requires 0 <= i < |ss| => JString(ss[i]))
  }

  /** The prompt record for one batch of rows. The language codes are passed through as given
      (they are not mapped to language names), the rules never depend on the input, and the
      rows are carried unchanged under `input_data`. */
  function UserPrompt(source: string, target: string, rows: seq<Row>): (p: Json)
    ensures p.JObject? && |p.fields| == 6
  {
    JObject(PromptFields(source, target, rows))
  }

  /** The six fields of the prompt, in the order the source's dict literal lists them. */
  function PromptFields(source: string, target: string, rows: seq<Row>): seq<(string, Json)>
  {
    [
      ("task", JString("translate")),
      ("source_language", JString(source)),
      ("target_language", JString(target)),
      ("rules", JArray(Strings(Rules))),
      ("input_data", JArray(Objects(rows))),
      ("output_format", JObject([("type", JString("array")), ("description", JString(OutputDescription))]))
    ]
  }

  /** The prompt holds the six keys once each, in order, each bound to its value: "translate" under `task`, the
      two language codes as given, the seven rules, the rows to translate as objects, and the
      expected output format. */
  lemma UserPromptFields(source: string, target: string, rows: seq<Row>)
    ensures var p := UserPrompt(source, target, rows);
      && Distinct(Names(p.fields))
      && Keys(p.fields) == ["task", "source_language", "target_language", "rules", "input_data", "output_format"]
      && Get(p.fields, "task") == Some(JString("translate"))
      && Get(p.fields, "source_language") == Some(JString(source))
      && Get(p.fields, "target_language") == Some(JString(target))
      && Get(p.fields, "rules") == Some(JArray(Strings(Rules))) && |Rules| == 7
      && Get(p.fields, "input_data") == Some(JArray(Objects(rows)))
      && Get(p.fields, "output_format") == Some(JObject([("type", JString("array")), ("description", JString(OutputDescription))]))
  {
    var fields := PromptFields(source, target, rows);
    var names := Names(fields);
    assert names == ["task", "source_language", "target_language", "rules", "input_data", "output_format"];
    DedupDistinct(names);
    GetDistinct(fields, 0);
    GetDistinct(fields, 1);
    GetDistinct(fields, 2);
    GetDistinct(fields, 3);
    GetDistinct(fields, 4);
    GetDistinct(fields, 5);
  }

  /** The language codes and names, in the order the table lists them. */
  const LanguageTable: seq<(string, string)> := [
    ("en", "English"), ("ko", "Korean"), ("ja", "Japanese"), ("zh", "Chinese"),
    ("es", "Spanish"), ("fr", "French"), ("de", "German"), ("ru", "Russian"),
    ("pt", "Portuguese"), ("it", "Italian"), ("ar", "Arabic"), ("hi", "Hindi"),
    ("th", "Thai"), ("vi", "Vietnamese"), ("id", "Indonesian")
  ]

  predicate IsLanguageCode(code: string) {
    |code| == 2 && 'a' <= code[0] <= 'z' && 'a' <= code[1] <= 'z'
  }

  function Codes(t: seq<(string, string)>): (cs: seq<string>)
    ensures |cs| == |t| && forall i :: 0 <= i < |t| ==> cs[i] == t[i].0
  {
    seq(|t|, i requires 0 <= i < |t| => t[i].0)
  }

  /** The Python dict written out by a table of (key, value) pairs. */
  function TableMap(t: seq<(string, string)>): (m: map<string, string>)
    ensures forall k :: k in m <==> k in Codes(t)
  {
    if |t| == 0 then map[] else TableMap(t[..|t| - 1])[t[|t| - 1].0 := t[|t| - 1].1]
  }

  /** A table without repeated keys gives a dict with one entry per row, each row's value
      under its key. */
  lemma {:induction false} TableMapOfDistinct(t: seq<(string, string)>)
    requires Distinct(Codes(t))
    ensures |TableMap(t)| == |t|
    ensures forall i :: 0 <= i < |t| ==> TableMap(t)[t[i].0] == t[i].1
  {
    if |t| > 0 {
      var init, last := t[..|t| - 1], t[|t| - 1];
      assert Codes(init) == Codes(t)[..|t| - 1];
      TableMapOfDistinct(init);
      var m := TableMap(init);
      assert last.0 !in Codes(init);
      assert last.0 !in m;
      assert TableMap(t) == m[last.0 := last.1];
      forall i | 0 <= i < |t| - 1 ensures TableMap(t)[t[i].0] == t[i].1 {
        assert t[i] == init[i] && t[i].0 != last.0;
      }
    }
  }

  /** The row of the table that lists `code`, or 15 when none does. */
  function CodeRow(code: string): nat
  {
    if code == "en" then 0
    else if code == "ko" then 1
    else if code == "ja" then 2
    else if code == "zh" then 3
    else if code == "es" then 4
    else if code == "fr" then 5
    else if code == "de" then 6
    else if code == "ru" then 7
    else if code == "pt" then 8
    else if code == "it" then 9
    else if code == "ar" then 10
    else if code == "hi" then 11
    else if code == "th" then 12
    else if code == "vi" then 13
    else if code == "id" then 14
    else 15
  }

  /** Each code in the table is found at its own row by `CodeRow`, so no code appears twice. */
  lemma LanguageCodesDistinct()
    ensures Distinct(Codes(LanguageTable))
    ensures forall code :: code in Codes(LanguageTable) ==> IsLanguageCode(code)
  {
    var cs := Codes(LanguageTable);
    forall i | 0 <= i < |cs| ensures CodeRow(cs[i]) == i && IsLanguageCode(cs[i]) {
    }
  }

  /** The map the languages endpoint returns: fifteen distinct two-letter codes. */
  function AvailableLanguages(): (m: map<string, string>)
    ensures |m| == 15
    ensures forall code :: code in m ==> IsLanguageCode(code)
    ensures forall i :: 0 <= i < |LanguageTable| ==> LanguageTable[i].0 in m && m[LanguageTable[i].0] == LanguageTable[i].1
  {
    var m := TableMap(LanguageTable);
    LanguageCodesDistinct();
    TableMapOfDistinct(LanguageTable);
    m
  }
}
