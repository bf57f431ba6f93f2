/**
 * appsrc/localizer/index.js: `getT(strings, lang)` returns a translator that
 * looks a key up in the language's table, falls back to the key itself, and
 * rewrites the translation once per property of `variables`.
 *
 * The loop header is `for (const varName in Object.keys(variables))`: a
 * `for ... in` over an array enumerates its INDICES, so the loop variable is
 * "0", "1", ..., not the property names, and the value substituted is
 * `variables["0"]`, `variables["1"]`, ... The model keeps that behaviour.
 */
module Localizer {
  import opened Wrappers

  type Table = map<string, string>

  /** The string tables, by language. */
  type Strings = map<string, Table>

  /** A variables object: its own properties, in `Object.keys` order. */
  type Variables = seq<(string, string)>

  /**
   * `result.replace(new RegExp(pattern, 'g'), value)`: the regular-expression
   * engine is not modelled, so the replacement is a parameter. It receives the
   * pattern TEXT; a JavaScript engine reads `{{0}}` as `{` repeated zero times
   * followed by `}`, which matches each `}` rather than the text `{{0}}`.
   */
  type Replace = (string, string, string) -> string

  /** `strings[lang] || {}`. */
  function LanguageTable(strings: Strings, lang: string): Table {
    if lang in strings then strings[lang] else map[]
  }

  /** The translation to use: none when it is missing or the empty string (both falsy). */
  function Stored(strings: Strings, lang: string, key: string): (r: Option<string>)
    ensures r.Some? <==> lang in strings && key in strings[lang] && strings[lang][key] != ""
    ensures r.Some? ==> r.value == strings[lang][key]
  {
    var table := LanguageTable(strings, lang);
    if key in table && table[key] != "" then Some(table[key]) else None
  }

  function DigitChar(d: nat): char
    requires d < 10
  {
    "0123456789"[d]
  }

  /** The decimal text of an array index, as `for ... in` yields it. */
  function IndexName(i: nat): string
    decreases i
  {
    if i < 10 then [DigitChar(i)] else IndexName(i / 10) + [DigitChar(i % 10)]
  }

  /** The pattern text of iteration `i`: `'{{' + varName + '}}'`. */
  function Placeholder(i: nat): string {
    "{{" + IndexName(i) + "}}"
  }

  /** `variables[name]` as the replacement text: "undefined" when there is no such property. */
  function Property(vars: Variables, name: string): string
    decreases |vars|
  {
    if vars == [] then "undefined"
    else if vars[0].0 == name then vars[0].1
    else Property(vars[1..], name)
  }

  /** The translation after the first `n` iterations of the substitution loop. */
  function Substituted(template: string, vars: Variables, replace: Replace, n: nat): string
    decreases n
  {
    if n == 0 then template
    else replace(Substituted(template, vars, replace, n - 1), Placeholder(n - 1), Property(vars, IndexName(n - 1)))
  }

  /** What the translator returned by `getT(strings, lang)` answers for `(key, variables)`. */
  function Translation(strings: Strings, lang: string, key: string, variables: Option<Variables>, replace: Replace): string {
    match Stored(strings, lang, key)
    case None => key
    case Some(s) => if variables.None? then s else Substituted(s, variables.value, replace, |variables.value|)
  }

  /** The translator's body, with its substitution loop. */
  method Translate(strings: Strings, lang: string, key: string, variables: Option<Variables>, replace: Replace)
    returns (result: string)
    ensures result == Translation(strings, lang, key, variables, replace)
  {
    var lstrings := LanguageTable(strings, lang);
    if key !in lstrings || lstrings[key] == "" {
      return key;
    }
    var s := lstrings[key];
    if variables.None? {
      return s;
    }
    var vars := variables.value;
    result := s;
    var i := 0;
    while i < |vars|
      invariant 0 <= i <= |vars|
      invariant result == Substituted(s, vars, replace, i)
    {
      var varName := IndexName(i);
      result := replace(result, "{{" + varName + "}}", Property(vars, varName));
      i := i + 1;
    }
  }

  /** A language without a table behaves as an empty table: the key comes back. */
  lemma MissingLanguageGivesKey(strings: Strings, lang: string, key: string, variables: Option<Variables>, replace: Replace)
    requires lang !in strings
    ensures Translation(strings, lang, key, variables, replace) == key
  {
  }

  /** A key missing from the table, or translated as "", comes back unchanged. */
  lemma UntranslatedGivesKey(strings: Strings, lang: string, key: string, variables: Option<Variables>, replace: Replace)
    requires key !in LanguageTable(strings, lang) || LanguageTable(strings, lang)[key] == ""
    ensures Translation(strings, lang, key, variables, replace) == key
  {
  }

  /** Without variables, or with an object without properties, the stored translation is returned as it is. */
  lemma NoVariablesGivesTranslation(strings: Strings, lang: string, key: string, variables: Option<Variables>, replace: Replace)
    requires Stored(strings, lang, key).Some?
    requires variables == None || variables == Some([])
    ensures Translation(strings, lang, key, variables, replace) == strings[lang][key]
  {
  }

  /** Only the requested language's table is consulted: no fallback to another language. */
  lemma OnlyOwnLanguage(strings: Strings, other: Strings, lang: string, key: string, variables: Option<Variables>, replace: Replace)
    requires LanguageTable(strings, lang) == LanguageTable(other, lang)
    ensures Translation(strings, lang, key, variables, replace) == Translation(other, lang, key, variables, replace)
  {
  }

  /**
   * The substitution reads `variables` only at the index names "0", "1", ...:
   * two objects that agree there give the same result, whatever their
   * property names.
   */
  lemma {:induction false} OnlyIndexNamesRead(template: string, vars: Variables, other: Variables, replace: Replace, n: nat)
    requires forall j :: 0 <= j < n ==> Property(vars, IndexName(j)) == Property(other, IndexName(j))
    ensures Substituted(template, vars, replace, n) == Substituted(template, other, replace, n)
    decreases n
  {
    if n > 0 {
      OnlyIndexNamesRead(template, vars, other, replace, n - 1);
    }
  }

  predicate IsDecimal(s: string) {
    forall i :: 0 <= i < |s| ==> '0' <= s[i] <= '9'
  }

  lemma {:induction false} IndexNameIsDecimal(i: nat)
    ensures IsDecimal(IndexName(i)) && |IndexName(i)| > 0
    decreases i
  {
    if i >= 10 {
      IndexNameIsDecimal(i / 10);
    }
  }

  lemma {:induction false} PropertyAbsent(vars: Variables, name: string)
    requires forall j :: 0 <= j < |vars| ==> vars[j].0 != name
    ensures Property(vars, name) == "undefined"
    decreases |vars|
  {
    if vars != [] {
      assert vars[0].0 != name;
      PropertyAbsent(vars[1..], name);
    }
  }

  /**
   * Variables whose names are not decimal indices are never substituted:
   * every iteration replaces `{{i}}` by "undefined", exactly as for an object
   * with no properties.
   */
  lemma NamedVariablesAreNotRead(template: string, vars: Variables, replace: Replace)
    requires forall j :: 0 <= j < |vars| ==> !IsDecimal(vars[j].0)
    ensures Substituted(template, vars, replace, |vars|) == Substituted(template, [], replace, |vars|)
  {
    forall j | 0 <= j < |vars| ensures Property(vars, IndexName(j)) == Property([], IndexName(j)) {
      IndexNameIsDecimal(j);
      PropertyAbsent(vars, IndexName(j));
    }
    OnlyIndexNamesRead(template, vars, [], replace, |vars|);
  }

  /** `t(key, {title: v})` makes one replace call, with pattern text `{{0}}` and "undefined", and none with `{{title}}`. */
  lemma TitleVariableExample(strings: Strings, lang: string, key: string, v: string, replace: Replace)
    requires Stored(strings, lang, key).Some?
    ensures Translation(strings, lang, key, Some([("title", v)]), replace)
      == replace(strings[lang][key], "{{0}}", "undefined")
  {
    var vars := [("title", v)];
    assert IndexName(0) == "0";
    assert Placeholder(0) == "{{0}}";
    assert Property(vars, "0") == "undefined" by {
      assert vars[0].0 != "0";
      assert vars[1..] == [];
    }
    assert Substituted(strings[lang][key], vars, replace, 1)
      == replace(Substituted(strings[lang][key], vars, replace, 0), Placeholder(0), Property(vars, IndexName(0)));
  }
}
