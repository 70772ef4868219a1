/** Where a value is bound matters only for the name its last segment gives. */
module Paths {
  import opened Text
  import opened Trees
  import opened Schema
  import opened Binding

  lemma {:induction false} LastOfJoined(path: string, key: string)
    ensures LastSegment(path + "." + key) == LastSegment(key)
    decreases |path|
  {
    var whole := path + "." + key;
    assert whole[|path|] == '.';
    if '.' in path {
      var i := IndexByte(path, '.').value;
      IndexByteIs(path[..i], '.', path[i + 1..] + "." + key);
      assert path == path[..i] + ['.'] + path[i + 1..];
      assert whole == path[..i] + ['.'] + (path[i + 1..] + "." + key);
      assert whole[i + 1..] == path[i + 1..] + "." + key;
      LastOfJoined(path[i + 1..], key);
    } else {
      IndexByteIs(path, '.', key);
      assert whole == path + ['.'] + key;
      assert whole[|path| + 1..] == key;
    }
  }

  lemma JoinedName(path: string, key: string)
    ensures NamingKey(JoinPath(path, key)) == NamingKey(key)
  {
    if path != "" {
      LastOfJoined(path, key);
      var whole := path + "." + key;
      assert key != "" ==> whole[|whole| - 1] == key[|key| - 1];
    }
  }

  lemma ItemName(path: string, i: nat)
    ensures NamingKey(ItemPath(path, i)).None?
  {
    var whole := ItemPath(path, i);
    assert whole[|whole| - 1] == ']';
  }

  /** The path ends in this name, which is all of it or comes after a dot. */
  predicate EndsIn(path: string, name: string) {
    path == name || (|name| < |path| && path[|path| - |name|..] == name && path[|path| - |name| - 1] == '.')
  }

  lemma {:induction false} LastSegmentIs(path: string, name: string)
    ensures LastSegment(path) == name <==> '.' !in name && EndsIn(path, name)
    decreases |path|
  {
    if '.' in path {
      var i := IndexByte(path, '.').value;
      var rest := path[i + 1..];
      LastSegmentIs(rest, name);
      if '.' !in name {
        EndsInRest(path, i, name);
      }
    }
  }

  lemma EndsInRest(path: string, i: nat, name: string)
    requires i < |path| && path[i] == '.' && '.' !in name
    ensures EndsIn(path, name) <==> EndsIn(path[i + 1..], name)
  {
    if EndsIn(path, name) && |name| > |path[i + 1..]| {
      assert false;
    }
  }

  /** The naming key of a place: exactly the last segment of its path, unless that is empty or a list item. */
  lemma NamingKeyIff(path: string, name: string)
    ensures NamingKey(path) == Some(name) <==>
            name != "" && '.' !in name && EndsIn(path, name) && (path != "" ==> path[|path| - 1] != ']')
  {
    LastSegmentIs(path, name);
  }

  /** A bind at two places that give the same name. */
  lemma {:induction false} ValueAnywhere(env: Env, n: Tree, t: Schema, v: Val, p: string, q: string)
    requires NamingKey(p) == NamingKey(q)
    ensures BindValue(env, n, t, v, p) == BindValue(env, n, t, v, q)
    decreases n, 3, t
  {
    hide BindStruct, BindKeys, BindItems, BindVariant, NamingKey;
    match t
    case PtrT(elem) => ValueAnywhere(env, n, elem, Pointee(env, v, elem), p, q);
    case IfaceT(family, _) =>
      if family in env.families {
        VariantAnywhere(env, n, family, v, p, q);
      }
    case StructT(_, _) =>
      if n.Map? {
        StructAnywhere(env, n, n.children, t, v, p, q);
      }
    case MapT(_, elem) =>
      if n.Map? {
        KeysAnywhere(env, n, elem, |n.keys|, p, q);
      }
    case SliceT(elem) =>
      if n.Seq? {
        ItemsAnywhere(env, n, elem, |n.items|, p, q);
      }
    case _ =>
  }

  lemma {:induction false} KeysAnywhere(env: Env, n: Tree, elem: Schema, m: nat, p: string, q: string)
    requires n.Map? && m <= |n.keys|
    ensures BindKeys(env, n, elem, m, p) == BindKeys(env, n, elem, m, q)
    decreases n, 1, elem, m
  {
    hide BindValue, NamingKey, JoinPath;
    if m > 0 {
      KeysAnywhere(env, n, elem, m - 1, p, q);
      var key := n.keys[m - 1];
      if key in n.children {
        JoinedName(p, key);
        JoinedName(q, key);
        ValueAnywhere(env, n.children[key], elem, Zero(env, elem), JoinPath(p, key), JoinPath(q, key));
      }
    }
  }

  lemma {:induction false} ItemsAnywhere(env: Env, n: Tree, elem: Schema, m: nat, p: string, q: string)
    requires n.Seq? && m <= |n.items|
    ensures BindItems(env, n, elem, m, p) == BindItems(env, n, elem, m, q)
    decreases n, 1, elem, m
  {
    hide BindValue, NamingKey, ItemPath;
    if m > 0 {
      ItemsAnywhere(env, n, elem, m - 1, p, q);
      ItemName(p, m - 1);
      ItemName(q, m - 1);
      ValueAnywhere(env, n.items[m - 1], elem, Zero(env, elem), ItemPath(p, m - 1), ItemPath(q, m - 1));
    }
  }

  /** A struct has no name: it binds alike at any two places. */
  lemma {:induction false} StructAnywhere(env: Env, n: Tree, cs: map<string, Tree>, t: Schema, v: Val, p: string, q: string)
    requires t.StructT? && forall k | k in cs :: cs[k] < n
    ensures BindStruct(env, n, cs, t, v, p) == BindStruct(env, n, cs, t, v, q)
    decreases n, 1, t
  {
    hide BindFields;
    FieldsAnywhere(env, n, cs, t, FieldVals(env, v, t), |t.fields|, p, q);
  }

  lemma {:induction false} FieldsAnywhere(env: Env, n: Tree, cs: map<string, Tree>, t: Schema, vals: seq<Val>, m: nat,
                                          p: string, q: string)
    requires t.StructT? && |vals| == |t.fields| && m <= |vals| && forall k | k in cs :: cs[k] < n
    ensures BindFields(env, n, cs, t, vals, m, p) == BindFields(env, n, cs, t, vals, m, q)
    decreases n, 0, t, m
  {
    hide BindField;
    if m > 0 {
      FieldsAnywhere(env, n, cs, t, vals, m - 1, p, q);
      FieldAnywhere(env, n, cs, t, m - 1, vals[m - 1], p, q);
    }
  }

  lemma {:induction false} FieldAnywhere(env: Env, n: Tree, cs: map<string, Tree>, t: Schema, i: nat, v: Val, p: string,
                                         q: string)
    requires t.StructT? && i < |t.fields| && forall k | k in cs :: cs[k] < n
    ensures BindField(env, n, cs, t, i, v, p) == BindField(env, n, cs, t, i, v, q)
    decreases n, 0, t, i
  {
    hide BindValue, BindFields, NamingKey, JoinPath;
    var f := t.fields[i];
    if f.tag.Key? && f.tag.key in cs {
      JoinedName(p, f.tag.key);
      JoinedName(q, f.tag.key);
      ValueAnywhere(env, cs[f.tag.key], f.typ, v, JoinPath(p, f.tag.key), JoinPath(q, f.tag.key));
    } else if f.tag.Inline? && Inlined(f).Some? {
      FieldsAnywhere(env, n, cs, Inlined(f).value, InnerVals(env, f, v), |Inlined(f).value.fields|, p, q);
    }
  }

  lemma {:induction false} VariantAnywhere(env: Env, n: Tree, family: nat, v: Val, p: string, q: string)
    requires family in env.families && NamingKey(p) == NamingKey(q)
    ensures BindVariant(env, n, family, v, p) == BindVariant(env, n, family, v, q)
    decreases n, 2
  {
    hide BindStruct, NamingKey, Selectable;
    var fam := env.families[family];
    if VariantOf(fam, n).Some? {
      var variant := VariantOf(fam, n).value.1;
      StructAnywhere(env, n, n.children - {fam.disc}, variant.typ, variant.make, p, q);
    }
  }
}
