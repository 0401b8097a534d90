/** The search results that read_code keeps between calls, and their JSON form. Reading back is lenient about
    missing fields and strict about their types. */
module SearchMatches {
  import opened Options

  datatype Json =
    | JNull
    | JBool(flag: bool)
    | JInt(number: int)
    | JReal(decimal: real)
    | JString(text: string)
    | JArray(items: seq<Json>)
    | JObject(fields: map<string, Json>)

  /** The text of a path is never empty. */
  type PathText = s: string | s != "" witness "."

  datatype VectorMatch = VectorMatch(
    unitId: string, symbolName: string, qualifiedName: string, lineNum: int, lineEnd: int, rawScore: real,
    cosineSimilarity: int, symbolType: string, hasBody: bool, hasDocstring: bool, body: string, preview: string,
    signature: string, filePath: PathText, docstring: string)

  datatype RerankDebug = RerankDebug(
    status: string, modelName: Option<string>, candidateCount: int, changed: bool,
    beforeSymbols: seq<string>, afterSymbols: seq<string>)

  datatype FindMatch = FindMatch(
    name: string, symbolType: string, location: string, path: Option<PathText>, lineNum: Option<int>)

  datatype AnalyzeMatch = AnalyzeMatch(
    columns: map<string, string>, location: string, path: Option<PathText>, lineNum: Option<int>)

  // ---------------------------------------------------------------- fields

  function Get(o: Json, key: string, missing: Json): Json
    requires o.JObject?
  {
    if key in o.fields then o.fields[key] else missing
  }

  function Text(j: Json): Option<string> {
    if j.JString? then Some(j.text) else None
  }

  /** In Python a truth value is an integer too. */
  function Int(j: Json): Option<int> {
    match j
    case JInt(i) => Some(i)
    case JBool(b) => Some(if b then 1 else 0)
    case _ => None
  }

  function Real(j: Json): Option<real> {
    if j.JReal? then Some(j.decimal)
    else if Int(j).Some? then Some(Int(j).value as real)
    else None
  }

  function Flag(j: Json): Option<bool> {
    if j.JBool? then Some(j.flag) else None
  }

  function TextList(items: seq<Json>): Option<seq<string>> {
    if items == [] then Some([])
    else if items[0].JString? && TextList(items[1..]).Some? then Some([items[0].text] + TextList(items[1..]).value)
    else None
  }

  /** An absent or null field, or one of the given type. */
  function Optional<T>(j: Json, read: Json -> Option<T>): Option<Option<T>> {
    if j.JNull? then Some(None)
    else if read(j).Some? then Some(Some(read(j).value))
    else None
  }

  function SerializePath(p: Option<PathText>): Json {
    if p.Some? then JString(p.value) else JNull
  }

  function DeserializePath(j: Json): Option<PathText> {
    if j.JString? && j.text != "" then Some(j.text) else None
  }

  function IntOrNull(n: Option<int>): Json {
    if n.Some? then JInt(n.value) else JNull
  }

  function TextItems(texts: seq<string>): seq<Json> {
    seq(|texts|, i requires 0 <= i < |texts| => JString(texts[i]))
  }

  // ---------------------------------------------------------------- matches

  function SerializeVector(m: VectorMatch): Json {
    JObject(map[
      "unit_id" := JString(m.unitId),
      "symbol_name" := JString(m.symbolName),
      "qualified_name" := JString(m.qualifiedName),
      "line_num" := JInt(m.lineNum),
      "line_end" := JInt(m.lineEnd),
      "raw_score" := JReal(m.rawScore),
      "cosine_similarity" := JInt(m.cosineSimilarity),
      "symbol_type" := JString(m.symbolType),
      "has_body" := JBool(m.hasBody),
      "has_docstring" := JBool(m.hasDocstring),
      "body" := JString(m.body),
      "preview" := JString(m.preview),
      "signature" := JString(m.signature),
      "file_path" := SerializePath(Some(m.filePath)),
      "docstring" := JString(m.docstring)])
  }

  function DeserializeVector(o: Json): Option<VectorMatch> {
    if !o.JObject? then None
    else
      var unitId := Text(Get(o, "unit_id", JNull));
      var symbolName := Text(Get(o, "symbol_name", JNull));
      var qualifiedName := Text(Get(o, "qualified_name", JNull));
      var lineNum := Int(Get(o, "line_num", JNull));
      var lineEnd := Int(Get(o, "line_end", JNull));
      var rawScore := Real(Get(o, "raw_score", JNull));
      var cosine := Int(Get(o, "cosine_similarity", JInt(0)));
      var symbolType := Text(Get(o, "symbol_type", JString("")));
      var hasBody := Flag(Get(o, "has_body", JBool(false)));
      var hasDocstring := Flag(Get(o, "has_docstring", JBool(false)));
      var body := Text(Get(o, "body", JString("")));
      var preview := Text(Get(o, "preview", JString("")));
      var signature := Text(Get(o, "signature", JString("")));
      var docstring := Text(Get(o, "docstring", JString("")));
      var path := DeserializePath(Get(o, "file_path", JNull));
      if unitId.None? || symbolName.None? || qualifiedName.None? || lineNum.None? || lineEnd.None? ||
         rawScore.None? || cosine.None? || symbolType.None? || hasBody.None? || hasDocstring.None? ||
         body.None? || preview.None? || signature.None? || docstring.None?
      then None
      else Some(VectorMatch(
        unitId.value, symbolName.value, qualifiedName.value, lineNum.value, lineEnd.value, rawScore.value,
        cosine.value, symbolType.value, hasBody.value, hasDocstring.value, body.value, preview.value,
        signature.value, if path.Some? then path.value else ".", docstring.value))
  }

  function SerializeRerankDebug(d: RerankDebug): Json {
    JObject(map[
      "status" := JString(d.status),
      "model_name" := if d.modelName.Some? then JString(d.modelName.value) else JNull,
      "candidate_count" := JInt(d.candidateCount),
      "changed" := JBool(d.changed),
      "before_symbols" := JArray(TextItems(d.beforeSymbols)),
      "after_symbols" := JArray(TextItems(d.afterSymbols))])
  }

  function DeserializeRerankDebug(o: Json): Option<RerankDebug> {
    if !o.JObject? then None
    else
      var status := Text(Get(o, "status", JNull));
      var modelName := Optional(Get(o, "model_name", JNull), Text);
      var count := Int(Get(o, "candidate_count", JNull));
      var changed := Flag(Get(o, "changed", JNull));
      var before := Get(o, "before_symbols", JNull);
      var after := Get(o, "after_symbols", JNull);
      if status.None? || modelName.None? || count.None? || changed.None? || !before.JArray? || !after.JArray? then None
      else if TextList(before.items).None? || TextList(after.items).None? then None
      else Some(RerankDebug(status.value, modelName.value, count.value, changed.value,
                            TextList(before.items).value, TextList(after.items).value))
  }

  function SerializeFind(m: FindMatch): Json {
    JObject(map[
      "name" := JString(m.name),
      "symbol_type" := JString(m.symbolType),
      "location" := JString(m.location),
      "path" := SerializePath(m.path),
      "line_num" := IntOrNull(m.lineNum)])
  }

  function DeserializeFind(o: Json): Option<FindMatch> {
    if !o.JObject? then None
    else
      var name := Text(Get(o, "name", JNull));
      var symbolType := Text(Get(o, "symbol_type", JNull));
      var location := Text(Get(o, "location", JNull));
      var lineNum := Optional(Get(o, "line_num", JNull), Int);
      if name.None? || symbolType.None? || location.None? || lineNum.None? then None
      else Some(FindMatch(name.value, symbolType.value, location.value,
                          DeserializePath(Get(o, "path", JNull)), lineNum.value))
  }

  function SerializeAnalyze(m: AnalyzeMatch): Json {
    JObject(map[
      "columns" := JObject(map k | k in m.columns :: JString(m.columns[k])),
      "location" := JString(m.location),
      "path" := SerializePath(m.path),
      "line_num" := IntOrNull(m.lineNum)])
  }

  function DeserializeAnalyze(o: Json): Option<AnalyzeMatch> {
    if !o.JObject? then None
    else
      var columns := Get(o, "columns", JNull);
      var location := Text(Get(o, "location", JNull));
      var lineNum := Optional(Get(o, "line_num", JNull), Int);
      if !columns.JObject? || location.None? || lineNum.None? then None
      else if exists k :: k in columns.fields && !columns.fields[k].JString? then None
      else Some(AnalyzeMatch(map k | k in columns.fields :: columns.fields[k].text, location.value,
                             DeserializePath(Get(o, "path", JNull)), lineNum.value))
  }

  lemma VectorNames(m: VectorMatch)
    ensures var o := SerializeVector(m);
      && o.JObject?
      && Get(o, "unit_id", JNull) == JString(m.unitId)
      && Get(o, "symbol_name", JNull) == JString(m.symbolName)
      && Get(o, "qualified_name", JNull) == JString(m.qualifiedName)
      && Get(o, "symbol_type", JString("")) == JString(m.symbolType)
      && Get(o, "file_path", JNull) == JString(m.filePath)
  {
  }

  lemma VectorNumbers(m: VectorMatch)
    ensures var o := SerializeVector(m);
      && o.JObject?
      && Get(o, "line_num", JNull) == JInt(m.lineNum)
      && Get(o, "line_end", JNull) == JInt(m.lineEnd)
      && Get(o, "raw_score", JNull) == JReal(m.rawScore)
      && Get(o, "cosine_similarity", JInt(0)) == JInt(m.cosineSimilarity)
  {
  }

  lemma VectorTexts(m: VectorMatch)
    ensures var o := SerializeVector(m);
      && o.JObject?
      && Get(o, "has_body", JBool(false)) == JBool(m.hasBody)
      && Get(o, "has_docstring", JBool(false)) == JBool(m.hasDocstring)
      && Get(o, "body", JString("")) == JString(m.body)
      && Get(o, "preview", JString("")) == JString(m.preview)
      && Get(o, "signature", JString("")) == JString(m.signature)
      && Get(o, "docstring", JString("")) == JString(m.docstring)
  {
  }

  /** Nothing is lost on the way through JSON, whatever the match holds. */
  lemma VectorReadsBack(m: VectorMatch)
    ensures DeserializeVector(SerializeVector(m)) == Some(m)
  {
    hide SerializeVector, Get;
    VectorNames(m);
    VectorNumbers(m);
    VectorTexts(m);
  }

  lemma {:induction false} TextItemsReadBack(texts: seq<string>)
    ensures TextList(TextItems(texts)) == Some(texts)
  {
    if texts != [] {
      TextItemsReadBack(texts[1..]);
      assert TextItems(texts)[1..] == TextItems(texts[1..]);
      assert [texts[0]] + texts[1..] == texts;
    }
  }

  lemma RerankDebugReadsBack(d: RerankDebug)
    ensures DeserializeRerankDebug(SerializeRerankDebug(d)) == Some(d)
  {
    hide TextList, TextItems;
    TextItemsReadBack(d.beforeSymbols);
    TextItemsReadBack(d.afterSymbols);
  }

  lemma FindReadsBack(m: FindMatch)
    ensures DeserializeFind(SerializeFind(m)) == Some(m)
  {
  }

  lemma AnalyzeReadsBack(m: AnalyzeMatch)
    ensures DeserializeAnalyze(SerializeAnalyze(m)) == Some(m)
  {
    var a := DeserializeAnalyze(SerializeAnalyze(m));
    assert a.Some? ==> a.value.columns == m.columns;
  }

  // ---------------------------------------------------------------- lists of matches

  /** All items, or nothing if one cannot be read. */
  function ReadAll<T>(items: seq<Json>, read: Json -> Option<T>): Option<seq<T>> {
    if items == [] then Some([])
    else
      var rest := ReadAll(items[1..], read);
      if read(items[0]).Some? && rest.Some? then Some([read(items[0]).value] + rest.value) else None
  }

  function Matches<T>(entry: Json, read: Json -> Option<T>): Option<seq<T>> {
    if entry.JObject? && Get(entry, "matches", JNull).JArray? then
      ReadAll(Get(entry, "matches", JNull).items, read)
    else None
  }

  lemma {:induction false} ReadAllPrefix<T>(items: seq<Json>, n: nat, read: Json -> Option<T>)
    requires n < |items|
    requires ReadAll(items[..n], read).Some?
    ensures ReadAll(items[..n + 1], read) ==
            if read(items[n]).Some? then Some(ReadAll(items[..n], read).value + [read(items[n]).value]) else None
    ensures read(items[n]).None? ==> ReadAll(items, read).None?
    decreases n
  {
    assert items == [items[0]] + items[1..];
    if n == 0 {
      assert items[..1][1..] == [];
      if read(items[0]).Some? {
        var value := [read(items[0]).value];
        assert value + [] == [] + value;
      }
    } else {
      assert items[..n][1..] == items[1..][..n - 1] && items[..n + 1][1..] == items[1..][..n];
      ReadAllPrefix(items[1..], n - 1, read);
      var first, middle := [read(items[0]).value], ReadAll(items[1..][..n - 1], read).value;
      if read(items[n]).Some? {
        assert first + (middle + [read(items[n]).value]) == (first + middle) + [read(items[n]).value];
      }
    }
  }

  method ReadMatches<T>(entry: Json, read: Json -> Option<T>) returns (matches: Option<seq<T>>)
    ensures matches == Matches(entry, read)
  {
    if !entry.JObject? || !Get(entry, "matches", JNull).JArray? {
      return None;
    }
    var items := Get(entry, "matches", JNull).items;
    var done: seq<T> := [];
    var n := 0;
    while n < |items|
      invariant 0 <= n <= |items|
      invariant ReadAll(items[..n], read) == Some(done)
    {
      ReadAllPrefix(items, n, read);
      var result := read(items[n]);
      if result.None? {
        return None;
      }
      done := done + [result.value];
      n := n + 1;
    }
    assert items[..n] == items;
    return Some(done);
  }

  function Written<T>(matches: seq<T>, write: T -> Json): seq<Json> {
    seq(|matches|, i requires 0 <= i < |matches| => write(matches[i]))
  }

  /** A list survives writing and reading if each of its matches does. */
  lemma {:induction false} WrittenReadsBack<T>(matches: seq<T>, write: T -> Json, read: Json -> Option<T>)
    requires forall i :: 0 <= i < |matches| ==> read(write(matches[i])) == Some(matches[i])
    ensures ReadAll(Written(matches, write), read) == Some(matches)
    decreases |matches|
  {
    if matches != [] {
      assert Written(matches, write)[1..] == Written(matches[1..], write);
      WrittenReadsBack(matches[1..], write, read);
      assert matches == [matches[0]] + matches[1..];
    }
  }

  // ---------------------------------------------------------------- the stored form

  function RequiredFields(m: VectorMatch): map<string, Json> {
    map["unit_id" := JString(m.unitId), "symbol_name" := JString(m.symbolName),
        "qualified_name" := JString(m.qualifiedName), "line_num" := JInt(m.lineNum), "line_end" := JInt(m.lineEnd),
        "raw_score" := JReal(m.rawScore)]
  }

  /** A stored vector match may lack everything but six fields, and gets defaults for the rest. */
  lemma OptionalFieldsMayBeMissing(m: VectorMatch)
    ensures DeserializeVector(JObject(RequiredFields(m))) == Some(VectorMatch(
      m.unitId, m.symbolName, m.qualifiedName, m.lineNum, m.lineEnd, m.rawScore, 0, "", false, false, "", "", "", ".",
      ""))
  {
  }

  /** Without one of the six there is no match. */
  lemma RequiredFieldsMustBeThere(fields: map<string, Json>, k: string)
    requires k !in fields
    requires k in {"unit_id", "symbol_name", "qualified_name", "line_num", "line_end", "raw_score"}
    ensures DeserializeVector(JObject(fields)) == None
  {
  }

  /** A flag reads as the number 0 or 1, an integer as a decimal, and an empty path as none, as in Python. */
  lemma ReadsLikePython(m: FindMatch, b: bool)
    ensures var o := JObject(SerializeFind(m).fields["line_num" := JBool(b)]["path" := JString("")]);
      DeserializeFind(o) == Some(m.(lineNum := Some(if b then 1 else 0), path := None))
    ensures forall i :: Real(JInt(i)) == Some(i as real)
  {
  }
}
