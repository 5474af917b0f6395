/** gateway/config.py: environment overrides as a tree, merged over the configuration file. */
module Config {
  import opened JsonValues

  /** One override: the lower-cased parts between double underscores, and the value, an integer or a string. */
  datatype Override = Override(path: seq<string>, value: Json)

  /** At least two parts (variables without a double underscore are skipped), and never a mapping. */
  predicate ProperOverride(o: Override) {
    |o.path| >= 2 && !o.value.Obj?
  }

  // ---------- From variables to overrides ----------

  const PREFIX := "GATEWAY_"

  /** One entry of the environment. */
  datatype Variable = Variable(name: string, text: string)

  function Lower(s: string): (r: string)
    ensures |r| == |s|
  {
    seq(|s|, k requires 0 <= k < |s| => if 'A' <= s[k] <= 'Z' then s[k] - 'A' + 'a' else s[k])
  }

  /** `s.split("__")`: cut at every delimiter, from the left and without overlap. */
  function Split(s: string): (parts: seq<string>)
    ensures parts != []
  {
    if |s| < 2 then [s]
    else if s[..2] == "__" then [""] + Split(s[2..])
    else var rest := Split(s[1..]); [[s[0]] + rest[0]] + rest[1..]
  }

  predicate Space(c: char) {
    c == ' ' || '\t' <= c <= '\r'
  }

  function Trimmed(s: string): string {
    if s != "" && Space(s[0]) then Trimmed(s[1..])
    else if s != "" && Space(Last(s)) then Trimmed(Init(s))
    else s
  }

  /** Decimal digits, with single underscores allowed between two of them. */
  function Digits(s: string): Option<nat> {
    if s == "" || !('0' <= Last(s) <= '9') then None
    else
      var digit := Last(s) as int - '0' as int;
      if |s| == 1 then Some(digit)
      else
        match Digits(if Last(Init(s)) == '_' then Init(Init(s)) else Init(s))
        case None => None
        case Some(n) => Some(10 * n + digit)
  }

  /** `int(text)`, or None for its ValueError. */
  function ParseInt(text: string): Option<int> {
    var s := Trimmed(text);
    if s != "" && (s[0] == '+' || s[0] == '-') then
      match Digits(s[1..])
      case None => None
      case Some(n) => var size: int := n; Some(if s[0] == '-' then -size else size)
    else Digits(s)
  }

  function ParseValue(text: string): Json {
    if ParseInt(text).Some? then Num(ParseInt(text).value) else Str(text)
  }

  /** What a variable overrides; none when the prefix or the delimiter is missing. */
  function ParseVariable(v: Variable): Option<Override> {
    if !(PREFIX <= v.name) then None
    else
      var parts := Split(Lower(v.name[|PREFIX|..]));
      if |parts| == 1 then None else Some(Override(parts, ParseValue(v.text)))
  }

  function Overrides(env: seq<Variable>): (r: seq<Override>)
    ensures Proper(r)
  {
    if env == [] then []
    else
      var o := ParseVariable(Last(env));
      Overrides(Init(env)) + if o.Some? then [o.value] else []
  }

  // ---------- Building the override tree ----------

  /** Assigns at the path, creating missing mappings.  None is the TypeError of descending into a plain value. */
  function Assign(tree: Json, path: seq<string>, value: Json): Option<Json>
    decreases |path|
  {
    if path == [] then Some(value)
    else if !tree.Obj? then None
    else
      match Assign(Child(tree, path[0]), path[1..], value)
      case None => None
      case Some(sub) => Some(Obj(tree.fields[path[0] := sub]))
  }

  /** The mapping or value under a key; a missing one is created empty. */
  function Child(tree: Json, key: string): Json
    requires tree.Obj?
  {
    GetOr(tree.fields, key, Obj(map[]))
  }

  function Insert(tree: Option<Json>, o: Override): Option<Json> {
    if tree.None? then None else Assign(tree.value, o.path, o.value)
  }

  predicate Proper(env: seq<Override>) {
    forall k :: 0 <= k < |env| ==> ProperOverride(env[k])
  }

  function Build(env: seq<Override>): Option<Json> {
    if env == [] then Some(Obj(map[])) else Insert(Build(Init(env)), Last(env))
  }

  lemma {:induction false} TreeIsMapping(env: seq<Override>)
    requires Proper(env)
    ensures Build(env).Some? ==> Build(env).value.Obj?
  {
  }

  // ---------- Merging ----------

  /** Mappings are merged key by key; anything else is replaced. */
  function Merge(base: Json, override: Json): Json
    decreases override
  {
    if !base.Obj? || !override.Obj? then override
    else Obj(map k | k in base.fields.Keys + override.fields.Keys ::
               if k !in override.fields then base.fields[k]
               else if k !in base.fields then override.fields[k]
               else Merge(base.fields[k], override.fields[k]))
  }

  /** The value at a path, if the path leads anywhere. */
  function Lookup(tree: Json, path: seq<string>): Option<Json> {
    if path == [] then Some(tree)
    else if !tree.Obj? || path[0] !in tree.fields then None
    else Lookup(tree.fields[path[0]], path[1..])
  }

  /** The loop of `_parse_env_overrides` over the environment, in whatever order it comes. */
  method ParseEnvOverrides(env: seq<Variable>) returns (tree: Option<Json>)
    ensures tree == Build(Overrides(env))
  {
    tree := Some(Obj(map[]));
    for i := 0 to |env|
      invariant Build(Overrides(env[..i])) == tree
    {
      assert Init(env[..i + 1]) == env[..i];
      var o := ParseVariable(env[i]);
      assert Overrides(env[..i + 1]) == Overrides(env[..i]) + if o.Some? then [o.value] else [];
      if o.None? {
        assert Overrides(env[..i + 1]) == Overrides(env[..i]);
        continue;
      }
      assert Init(Overrides(env[..i + 1])) == Overrides(env[..i]);
      tree := Insert(tree, o.value);
    }
    assert env[..|env|] == env;
  }

  /** `_deep_merge`: a fresh mapping, updated key by key. */
  method DeepMerge(base: Fields, override: Fields) returns (result: Fields)
    ensures Obj(result) == Merge(Obj(base), Obj(override))
    decreases Obj(override)
  {
    result := base;
    var todo := override.Keys;
    while todo != {}
      invariant todo <= override.Keys
      invariant result.Keys == base.Keys + (override.Keys - todo)
      invariant forall k :: k in base && (k !in override || k in todo) ==> result[k] == base[k]
      invariant forall k :: k in override && k !in todo ==>
                  result[k] == if k in base then Merge(base[k], override[k]) else override[k]
      decreases todo
    {
      var key :| key in todo;
      var value := override[key];
      if key in result && result[key].Obj? && value.Obj? {
        assert override[key] < Obj(override);
        var merged := DeepMerge(result[key].fields, value.fields);
        result := result[key := Obj(merged)];
      } else {
        result := result[key := value];
      }
      todo := todo - {key};
    }
    assert Obj(result).fields == Merge(Obj(base), Obj(override)).fields;
  }

  /** `load_config` up to the schema: the overrides merged over the file, or the error of building them. */
  method LoadConfig(file: Fields, env: seq<Variable>) returns (merged: Option<Fields>)
    ensures var tree := Build(Overrides(env));
            if tree.None? then merged == None
            else merged.Some? && Obj(merged.value) == Merge(Obj(file), tree.value)
  {
    var overrides := ParseEnvOverrides(env);
    TreeIsMapping(Overrides(env));
    if overrides.None? {
      return None;
    }
    var m := DeepMerge(file, overrides.value.fields);
    merged := Some(m);
  }
}
