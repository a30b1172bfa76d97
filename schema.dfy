/** The schema helpers of HMSClient: `make_schema` turns compact
    "name:type" column specifications into field schemas, and
    `parse_schema` renders field schemas as "name<TAB>type" lines. */
module SchemaCodec {
  import opened Text

  /** The metastore's column description. */
  datatype FieldSchema = FieldSchema(name: string, typeName: string, comment: string)

  /** The type used when a specification names none. */
  const DEFAULT_TYPE := "string"

  /** What one compact specification denotes: the name is the text before the
      first colon (or the whole text); the type is the text between the first
      and second colon, or the default type when that text is empty or there
      is no colon; the comment is empty. */
  function ParseParam(param: string): (f: FieldSchema)
    ensures f.comment == "" && f.typeName != ""
    ensures ':' !in f.name && f.name <= param
    ensures ':' !in param ==> f == FieldSchema(param, DEFAULT_TYPE, "")
    ensures ':' in param ==> param[|f.name|] == ':'
  {
    if ':' in param then
      var t := Before(After(param, ':'), ':');
      FieldSchema(Before(param, ':'), if t == "" then DEFAULT_TYPE else t, "")
    else
      FieldSchema(param, DEFAULT_TYPE, "")
  }

  /** The schema that a list of compact specifications denotes, entry by entry. */
  function SchemaOf(params: seq<string>): seq<FieldSchema>
  {
    seq(|params|, i requires 0 <= i < |params| => ParseParam(params[i]))
  }

  /** `make_schema`: one field schema per specification, in order, built by
      splitting each specification on ':'. */
  method MakeSchema(params: seq<string>) returns (schema: seq<FieldSchema>)
    ensures |schema| == |params|
    ensures forall i :: 0 <= i < |params| ==> schema[i] == ParseParam(params[i])
    ensures forall i :: 0 <= i < |schema| ==> schema[i].comment == ""
    ensures schema == SchemaOf(params)
  {
    schema := [];
    for n := 0 to |params|
      invariant |schema| == n
      invariant forall i :: 0 <= i < n ==> schema[i] == ParseParam(params[i])
    {
      var param := params[n];
      var paramName: string;
      var paramType := DEFAULT_TYPE;
      if ':' in param {
        var parts := Split(param, ':');
        SplitParam(param);
        paramName := parts[0];
        paramType := if parts[1] != "" then parts[1] else DEFAULT_TYPE;
      } else {
        paramName := param;
      }
      schema := schema + [FieldSchema(paramName, paramType, "")];
    }
    assert schema == SchemaOf(params);
  }

  /** A specification with a colon means what its split on ':' says: the
      first piece names the column and a non-empty second piece is its type. */
  lemma SplitParam(param: string)
    requires ':' in param
    ensures var parts := Split(param, ':');
            ParseParam(param) == FieldSchema(parts[0], if parts[1] != "" then parts[1] else DEFAULT_TYPE, "")
  {
    SplitSecond(param, ':');
  }

  /** One rendered line: name, a tab, type. */
  function Line(f: FieldSchema): string {
    f.name + "\t" + f.typeName
  }

  /** `parse_schema`: one "name<TAB>type" line per field schema, in order. */
  function ParseSchema(schemas: seq<FieldSchema>): (lines: seq<string>)
    ensures |lines| == |schemas|
    ensures forall i :: 0 <= i < |schemas| ==> lines[i] == schemas[i].name + "\t" + schemas[i].typeName
  {
    if schemas == [] then [] else [Line(schemas[0])] + ParseSchema(schemas[1..])
  }

  /** A rendered line splits back on the tab into name and type, so
      `parse_schema` loses nothing but the comment. */
  lemma LineSplits(f: FieldSchema)
    requires '\t' !in f.name && '\t' !in f.typeName
    ensures Split(Line(f), '\t') == [f.name, f.typeName]
  {
    SplitJoin([f.name, f.typeName], '\t');
    assert Join([f.name, f.typeName], "\t") == Line(f);
  }

  /** "n:t" with a non-empty type names column n of type t. */
  lemma TypedParam(n: string, t: string)
    requires ':' !in n && ':' !in t && t != ""
    ensures ParseParam(n + ":" + t) == FieldSchema(n, t, "")
  {
    FirstSeparator(n, ':', t);
  }

  /** "n:" with an empty type names column n of the default type. */
  lemma EmptyTypeParam(n: string)
    requires ':' !in n
    ensures ParseParam(n + ":") == FieldSchema(n, DEFAULT_TYPE, "")
  {
    FirstSeparator(n, ':', "");
    assert n + ":" == n + [':'] + "";
  }

  /** Only the second colon-separated piece is the type: "n:t:rest" is
      column n of type t, whatever follows. */
  lemma ExtraColonsIgnored(n: string, t: string, rest: string)
    requires ':' !in n && ':' !in t && t != ""
    ensures ParseParam(n + ":" + t + ":" + rest) == FieldSchema(n, t, "")
  {
    assert n + ":" + t + ":" + rest == n + [':'] + (t + [':'] + rest);
    FirstSeparator(n, ':', t + [':'] + rest);
    FirstSeparator(t, ':', rest);
  }

  /** "a:b:c" has type "b". */
  lemma ThreePieces()
    ensures ParseParam("a:b:c") == FieldSchema("a", "b", "")
  {
    ExtraColonsIgnored("a", "b", "c");
    assert "a" + ":" + "b" + ":" + "c" == "a:b:c";
  }

  /** Round trip of both functions: the specification "n:t" comes back as
      "n<TAB>t". */
  lemma RoundTrip(n: string, t: string)
    requires ':' !in n && ':' !in t && t != ""
    ensures ParseSchema(SchemaOf([n + ":" + t])) == [n + "\t" + t]
  {
    TypedParam(n, t);
  }

  /** Round trip of both functions without a type: the specifications "n"
      and "n:" both come back as "n<TAB>string". */
  lemma UntypedRoundTrip(n: string)
    requires ':' !in n
    ensures ParseSchema(SchemaOf([n])) == [n + "\t" + DEFAULT_TYPE]
    ensures ParseSchema(SchemaOf([n + ":"])) == [n + "\t" + DEFAULT_TYPE]
  {
    EmptyTypeParam(n);
  }

  /** Round trip of a whole list of typed specifications. */
  lemma RoundTripAll(names: seq<string>, types: seq<string>)
    requires |names| == |types|
    requires forall i :: 0 <= i < |names| ==> ':' !in names[i] && ':' !in types[i] && types[i] != ""
    ensures ParseSchema(SchemaOf(seq(|names|, i requires 0 <= i < |names| => names[i] + ":" + types[i])))
         == seq(|names|, i requires 0 <= i < |names| => names[i] + "\t" + types[i])
  {
    forall i | 0 <= i < |names| {
      TypedParam(names[i], types[i]);
    }
  }
}
