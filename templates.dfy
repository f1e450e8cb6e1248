/**
 * `processTemplate` of the dynamic-content hook: every `{{a.b.c}}` placeholder of a
 * template is replaced by the value reached by walking the keys `a`, `b`, `c` from the
 * record `{ site_settings, global_strings }`; a placeholder whose walk reaches nothing
 * stays in the text as it was.
 */
module Templates {
  import opened Wrappers
  import opened Text
  import opened Scanner

  /** A JSON value as the CMS delivers it (numbers are the integral ones) */
  datatype JsValue =
    | JNull
    | JBool(b: bool)
    | JNum(n: int)
    | JStr(s: string)
    | JArr(elems: seq<JsValue>)
    | JObj(fields: map<string, JsValue>)

  /** JavaScript truthiness of a possibly undefined value */
  predicate TruthyValue(v: Option<JsValue>) {
    match v
    case None => false
    case Some(JNull) => false
    case Some(JBool(b)) => b
    case Some(JNum(n)) => n != 0
    case Some(JStr(s)) => s != []
    case Some(_) => true
  }

  /** A canonical array index: decimal digits with no leading zero */
  predicate IsIndex(key: string) {
    && |key| >= 1
    && (forall k :: 0 <= k < |key| ==> IsDigit(key[k]))
    && (key[0] == '0' ==> |key| == 1)
  }

  /** `value?.[key]`, with `None` standing for `undefined`: own members of objects,
      elements and `length` of arrays and strings */
  function Member(value: Option<JsValue>, key: string): (r: Option<JsValue>)
    ensures value.None? || value == Some(JNull) ==> r.None?
    ensures r.Some? ==> value.Some? && (value.value.JObj? || value.value.JArr? || value.value.JStr?)
  {
    match value
    case None => None
    case Some(JObj(fields)) => if key in fields then Some(fields[key]) else None
    case Some(JArr(elems)) =>
      if key == "length" then Some(JNum(|elems|))
      else if IsIndex(key) && DecimalValue(key) < |elems| then Some(elems[DecimalValue(key)])
      else None
    case Some(JStr(s)) =>
      if key == "length" then Some(JNum(|s|))
      else if IsIndex(key) && DecimalValue(key) < |s| then Some(JStr([s[DecimalValue(key)]]))
      else None
    case Some(_) => None
  }

  /** The value reached by following `keys` one after the other from `root` */
  function Resolve(root: Option<JsValue>, keys: seq<string>): Option<JsValue>
  {
    if keys == [] then root else Member(Resolve(root, keys[..|keys| - 1]), keys[|keys| - 1])
  }

  /** Once a walk reaches `undefined` or `null` before its last key, it ends in
      `undefined`: optional chaining never fails */
  lemma {:induction false} MissingStepIsUndefined(root: Option<JsValue>, keys: seq<string>, i: nat)
    requires i < |keys|
    requires Resolve(root, keys[..i]).None? || Resolve(root, keys[..i]) == Some(JNull)
    ensures Resolve(root, keys).None?
    decreases |keys|
  {
    var n := |keys|;
    if i == n - 1 {
      assert keys[..n - 1] == keys[..i];
    } else {
      var front := keys[..n - 1];
      assert front[..i] == keys[..i];
      MissingStepIsUndefined(root, front, i);
    }
  }

  /** The record the placeholders are resolved against */
  function Root(siteSettings: JsValue, globalStrings: JsValue): JsValue {
    JObj(map["site_settings" := siteSettings, "global_strings" := globalStrings])
  }

  /** A path starting with `site_settings` walks the site settings with the remaining keys */
  lemma {:induction false} ResolveSiteSettings(siteSettings: JsValue, globalStrings: JsValue, keys: seq<string>)
    ensures Resolve(Some(Root(siteSettings, globalStrings)), ["site_settings"] + keys)
            == Resolve(Some(siteSettings), keys)
    decreases |keys|
  {
    var root := Some(Root(siteSettings, globalStrings));
    var path := ["site_settings"] + keys;
    if keys == [] {
      assert path[..0] == [];
    } else {
      var n := |keys|;
      assert path[..|path| - 1] == ["site_settings"] + keys[..n - 1];
      ResolveSiteSettings(siteSettings, globalStrings, keys[..n - 1]);
    }
  }

  /** The walk of the callback: `value` starts at the root and follows one key per step */
  method WalkPath(root: JsValue, keys: seq<string>) returns (value: Option<JsValue>)
    ensures value == Resolve(Some(root), keys)
  {
    value := Some(root);
    for i := 0 to |keys|
      invariant value == Resolve(Some(root), keys[..i])
    {
      assert keys[..i + 1][..i] == keys[..i];
      value := Member(value, keys[i]);
    }
    assert keys[..|keys|] == keys;
  }

  /** `String(value)` for the values a walk can end in (not `null`, which is never printed) */
  function StringOf(v: JsValue): (r: string)
    ensures v.JStr? ==> r == v.s
    ensures v.JNum? && v.n >= 0 ==> (forall k :: 0 <= k < |r| ==> IsDigit(r[k])) && DecimalValue(r) == v.n
  {
    match v
    case JNull => "null"
    case JBool(b) => if b then "true" else "false"
    case JNum(n) =>
      if n >= 0 then DecimalOfNatToString(n); NatToString(n) else IntToString(n)
    case JStr(s) => s
    case JArr(elems) =>
      if elems == [] then []
      else Join(seq(|elems|, i requires 0 <= i < |elems| =>
                  if elems[i] == JNull then [] else StringOf(elems[i])), ',')
    case JObj(_) => "[object Object]"
  }

  /** What the callback returns for one match `whole` with captured `path` */
  function Substitution(root: JsValue, whole: string, path: string): string
  {
    var value := Resolve(Some(root), Split(Trim(path), '.'));
    if value.None? || value == Some(JNull) then whole else StringOf(value.value)
  }

  /** The callback of `replace`: trims and splits the path, walks it and prints the value */
  method ReplacePlaceholder(root: JsValue, whole: string, path: string) returns (out: string)
    ensures out == Substitution(root, whole, path)
  {
    var keys := Split(Trim(path), '.');
    var value := WalkPath(root, keys);
    if value != None && value != Some(JNull) {
      out := StringOf(value.value);
    } else {
      out := whole;
    }
  }

  predicate NotClose(c: char) {
    c != '}'
  }

  /** The pattern `\{\{([^}]+)\}\}` at the front of `t`. The run of non-`}` characters
      ends at the first `}`, so no backtracking can find another match. */
  function PlaceholderAt(root: JsValue, t: string): (h: Option<Hit>)
    ensures h.Some? ==> 5 <= h.value.len <= |t| && t[0] == '{'
  {
    if !OccursAt(t, 0, "{{") then None
    else
      var j := Skip(t, 2, NotClose);
      if j == 2 || !OccursAt(t, j, "}}") then None
      else Some(Hit(j + 2, Substitution(root, t[..j + 2], t[2..j])))
  }

  /** The global `replace` of the placeholders */
  function Substitute(root: JsValue, template: string): string
  {
    MatcherAdvances(root);
    Scan(t => PlaceholderAt(root, t), template)
  }

  lemma MatcherAdvances(root: JsValue)
    ensures Advances(t => PlaceholderAt(root, t))
  {
    forall t: string | PlaceholderAt(root, t).Some?
      ensures 0 < PlaceholderAt(root, t).value.len <= |t|
    {
    }
  }

  /** `processTemplate`: nothing happens until both records are loaded, nor for an
      empty template */
  function ProcessTemplate(siteSettings: Option<JsValue>, globalStrings: Option<JsValue>,
                           template: string): (r: string)
    ensures !TruthyValue(siteSettings) || !TruthyValue(globalStrings) ==> r == template
    ensures template == [] ==> r == []
  {
    if !TruthyValue(siteSettings) || !TruthyValue(globalStrings) || template == [] then template
    else Substitute(Root(siteSettings.value, globalStrings.value), template)
  }

  /** A placeholder at the front is matched exactly up to its closing braces */
  lemma PlaceholderMatch(root: JsValue, path: string, rest: string)
    requires |path| >= 1 && '}' !in path
    ensures var h := PlaceholderAt(root, "{{" + path + "}}" + rest);
            && h.Some? && h.value.len == |path| + 4
            && h.value.replacement == Substitution(root, "{{" + path + "}}", path)
  {
    var whole := "{{" + path + "}}";
    var t := whole + rest;
    var j := |path| + 2;
    assert t[..2] == "{{";
    forall k | 2 <= k < j ensures NotClose(t[k]) {
      assert t[k] == whole[k] == path[k - 2];
    }
    assert t[j..j + 2] == "}}";
    SkipIs(t, 2, NotClose, j);
    assert t[..j + 2] == whole && t[2..j] == path;
  }

  /** Text with no `{` is copied unchanged, in order */
  lemma CopiesText(root: JsValue, a: string, b: string)
    requires '{' !in a
    ensures Substitute(root, a + b) == a + Substitute(root, b)
  {
    MatcherAdvances(root);
    var m := t => PlaceholderAt(root, t);
    forall k | 0 <= k < |a| ensures m(a[k..] + b).None? {
      assert (a[k..] + b)[0] == a[k];
    }
    ScanPlainPrefix(m, a, b);
  }

  /** A placeholder is replaced by its substitution and the text after it is processed
      on its own */
  lemma ReplacesPlaceholder(root: JsValue, path: string, b: string)
    requires |path| >= 1 && '}' !in path
    ensures Substitute(root, "{{" + path + "}}" + b)
            == Substitution(root, "{{" + path + "}}", path) + Substitute(root, b)
  {
    MatcherAdvances(root);
    var m := t => PlaceholderAt(root, t);
    PlaceholderMatch(root, path, b);
    ScanHitPrefix(m, "{{" + path + "}}", b, Substitution(root, "{{" + path + "}}", path));
  }

  /** A placeholder whose walk reaches `undefined` or `null` stays, braces included */
  lemma UnresolvedKept(root: JsValue, path: string, b: string)
    requires |path| >= 1 && '}' !in path
    requires var v := Resolve(Some(root), Split(Trim(path), '.')); v.None? || v == Some(JNull)
    ensures Substitute(root, "{{" + path + "}}" + b) == "{{" + path + "}}" + Substitute(root, b)
  {
    ReplacesPlaceholder(root, path, b);
  }

  /** A placeholder whose walk reaches a value is replaced by that value printed */
  lemma ResolvedInserted(root: JsValue, path: string, b: string, v: JsValue)
    requires |path| >= 1 && '}' !in path
    requires Resolve(Some(root), Split(Trim(path), '.')) == Some(v) && v != JNull
    ensures Substitute(root, "{{" + path + "}}" + b) == StringOf(v) + Substitute(root, b)
  {
    ReplacesPlaceholder(root, path, b);
  }

  /** Where a `{{` is never closed, nothing is replaced */
  lemma UnclosedKept(root: JsValue, a: string)
    requires '}' !in a
    ensures Substitute(root, a) == a
  {
    MatcherAdvances(root);
    var m := t => PlaceholderAt(root, t);
    forall k | 0 <= k < |a| ensures m(a[k..]).None? {
      var t := a[k..];
      assert forall i :: 0 <= i < |t| ==> t[i] != '}';
    }
    ScanPlain(m, a);
  }
}
