/**
 * Dotted configuration overrides merged into one flat map (src/desktop/launchConfig.ts): the map stands for the same
 * tree as setting every override in turn, and holds a key beside a dotted ancestor of it only for the empty key, which
 * the program's `if (ancestor)` takes for none.
 */
module LaunchConfig {
  import opened Basics
  import opened Dots

  /** A configuration value: an object, or anything else (a scalar, an array). */
  datatype Value = Leaf(token: Token) | Object(fields: map<string, Value>)

  datatype Override = Override(key: string, value: Value)

  /** `key.startsWith(`${candidate}.`)`. */
  predicate IsAncestor(candidate: string, key: string) {
    candidate + "." <= key
  }

  /** A property of an object, as the object to go on in: what is no object is replaced by an empty one. */
  function Child(fields: map<string, Value>, part: string): map<string, Value> {
    if part in fields && fields[part].Object? then fields[part].fields else map[]
  }

  function SetPath(fields: map<string, Value>, path: seq<string>, value: Value): map<string, Value>
    requires path != []
    decreases |path|
  {
    if |path| == 1 then fields[path[0] := value]
    else fields[path[0] := Object(SetPath(Child(fields, path[0]), path[1..], value))]
  }

  function ObjectOr(value: Value): map<string, Value> {
    if value.Object? then value.fields else map[]
  }

  /** The tree that setting every override in order gives. */
  function Tree(fields: map<string, Value>, overrides: seq<Override>): map<string, Value>
    decreases |overrides|
  {
    if overrides == [] then fields
    else Tree(SetPath(fields, Split(overrides[0].key), overrides[0].value), overrides[1..])
  }

  // ---- dotted keys and paths ----

  /** Dotted ancestry is being a proper prefix of the path. */
  lemma {:induction false} AncestorIsPrefix(a: string, key: string)
    ensures IsAncestor(a, key) <==> Split(a) <= Split(key) && Split(a) != Split(key)
    ensures IsAncestor(a, key) ==> Split(key) == Split(a) + Split(key[|a| + 1..])
  {
    if IsAncestor(a, key) {
      var rest := key[|a| + 1..];
      assert key == a + "." + rest;
      SplitDotted(a, rest);
    } else if Split(a) <= Split(key) && Split(a) != Split(key) {
      var rest := Split(key)[|Split(a)|..];
      assert Split(key) == Split(a) + rest;
      JoinConcat(Split(a), rest);
      JoinSplit(a);
      JoinSplit(key);
    }
  }

  // ---- setting paths ----

  ghost predicate Apart(p: seq<string>, q: seq<string>) { !(p <= q) && !(q <= p) }

  lemma {:induction false} ApartTail(p: seq<string>, q: seq<string>)
    requires p != [] && q != [] && Apart(p, q) && p[0] == q[0]
    ensures |p| > 1 && |q| > 1 && Apart(p[1..], q[1..])
  {
    assert p == [p[0]] + p[1..] && q == [q[0]] + q[1..];
  }

  lemma {:induction false} SetTwice(fields: map<string, Value>, p: seq<string>, v: Value, q: seq<string>, w: Value)
    requires |p| > 1 && |q| > 1 && p[0] == q[0]
    ensures SetPath(SetPath(fields, p, v), q, w)
         == fields[p[0] := Object(SetPath(SetPath(Child(fields, p[0]), p[1..], v), q[1..], w))]
  {}

  lemma {:induction false} DifferentParts(fields: map<string, Value>, p: seq<string>, v: Value, q: seq<string>, w: Value)
    requires p != [] && q != [] && p[0] != q[0]
    ensures SetPath(SetPath(fields, p, v), q, w) == SetPath(SetPath(fields, q, w), p, v)
  {
    hide *;
    SetsOne(fields, p, v);
    SetsOne(fields, q, w);
    SetsOne(SetPath(fields, p, v), q, w);
    SetsOne(SetPath(fields, q, w), p, v);
  }

  /** What setting a path puts at its first part. */
  function PartValue(fields: map<string, Value>, path: seq<string>, value: Value): Value
    requires path != []
  {
    if |path| == 1 then value else Object(SetPath(Child(fields, path[0]), path[1..], value))
  }

  /** Setting a path changes one property only, and looks at that one only. */
  lemma {:induction false} SetsOne(fields: map<string, Value>, path: seq<string>, value: Value)
    requires path != []
    ensures SetPath(fields, path, value) == fields[path[0] := PartValue(fields, path, value)]
    ensures forall other: map<string, Value> :: (path[0] in other <==> path[0] in fields) && (path[0] in fields ==> other[path[0]] == fields[path[0]])
              ==> PartValue(other, path, value) == PartValue(fields, path, value)
  {}

  /** Paths apart are set in any order. */
  lemma {:induction false} ApartCommutes(fields: map<string, Value>, p: seq<string>, v: Value, q: seq<string>, w: Value)
    requires p != [] && q != [] && Apart(p, q)
    ensures SetPath(SetPath(fields, p, v), q, w) == SetPath(SetPath(fields, q, w), p, v)
    decreases |p|
  {
    if p[0] == q[0] {
      ApartTail(p, q);
      ApartCommutes(Child(fields, p[0]), p[1..], v, q[1..], w);
      hide SetPath;
      SetTwice(fields, p, v, q, w);
      SetTwice(fields, q, w, p, v);
    } else {
      DifferentParts(fields, p, v, q, w);
    }
  }

  /** Setting below a path sets inside the value there. */
  lemma {:induction false} SetBelow(fields: map<string, Value>, p: seq<string>, v: Value, rest: seq<string>, w: Value)
    requires p != [] && rest != []
    ensures SetPath(SetPath(fields, p, v), p + rest, w) == SetPath(fields, p, Object(SetPath(ObjectOr(v), rest, w)))
    decreases |p|
  {
    if |p| == 1 {
      assert (p + rest)[1..] == rest;
    } else {
      assert (p + rest)[1..] == p[1..] + rest;
      SetBelow(Child(fields, p[0]), p[1..], v, rest, w);
    }
  }

  /** Setting a path forgets what was set at it or below it. */
  lemma {:induction false} SetOver(fields: map<string, Value>, p: seq<string>, v: Value, q: seq<string>, w: Value)
    requires p != [] && p <= q
    ensures SetPath(SetPath(fields, q, w), p, v) == SetPath(fields, p, v)
    decreases |p|
  {
    if |p| > 1 {
      assert p[1..] <= q[1..];
      SetOver(Child(fields, p[0]), p[1..], v, q[1..], w);
    }
  }

  // ---- flat maps ----

  /** How a key may stand before another: apart, or empty and the ancestor. */
  ghost predicate Before(a: string, b: string) {
    Apart(Split(a), Split(b)) || (a == "" && IsAncestor(a, b))
  }

  /** A map in insertion order: a key is set once, and only the empty key is an ancestor of another, which comes later. */
  ghost predicate Flat(overrides: seq<Override>) {
    forall i, j :: 0 <= i < j < |overrides| ==> Before(overrides[i].key, overrides[j].key)
  }

  ghost predicate HasKey(overrides: seq<Override>, key: string) {
    exists i :: 0 <= i < |overrides| && overrides[i].key == key
  }

  /** A key below the empty one. */
  ghost predicate HasDotted(overrides: seq<Override>) {
    exists i :: 0 <= i < |overrides| && IsAncestor("", overrides[i].key)
  }

  /** A key below the empty one is set after the last time the empty key is. */
  ghost predicate DottedLast(entries: seq<Override>) {
    exists j :: 0 <= j < |entries| && IsAncestor("", entries[j].key) && forall k :: j < k < |entries| ==> entries[k].key != ""
  }

  /** The inputs whose map is not flat: the empty key is set, and a key below it after the last time. */
  ghost predicate Unflattened(entries: seq<Override>) {
    HasKey(entries, "") && DottedLast(entries)
  }

  lemma {:induction false} TreeConcat(fields: map<string, Value>, a: seq<Override>, b: seq<Override>)
    ensures Tree(fields, a + b) == Tree(Tree(fields, a), b)
    decreases |a|
  {
    if a == [] {
      assert a + b == b;
    } else {
      assert (a + b)[1..] == a[1..] + b;
      TreeConcat(SetPath(fields, Split(a[0].key), a[0].value), a[1..], b);
    }
  }

  /** An override apart from all the later ones can be set last. */
  lemma {:induction false} SetLast(fields: map<string, Value>, x: Override, b: seq<Override>)
    requires forall i :: 0 <= i < |b| ==> Apart(Split(x.key), Split(b[i].key))
    ensures Tree(SetPath(fields, Split(x.key), x.value), b) == SetPath(Tree(fields, b), Split(x.key), x.value)
    decreases |b|
  {
    if b != [] {
      ApartCommutes(fields, Split(x.key), x.value, Split(b[0].key), b[0].value);
      SetLast(SetPath(fields, Split(b[0].key), b[0].value), x, b[1..]);
    }
  }

  /** So can one in the middle of a list. */
  lemma {:induction false} MiddleLast(fields: map<string, Value>, a: seq<Override>, x: Override, b: seq<Override>)
    requires forall i :: 0 <= i < |b| ==> Apart(Split(x.key), Split(b[i].key))
    ensures Tree(fields, a + [x] + b) == SetPath(Tree(fields, a + b), Split(x.key), x.value)
  {
    assert a + [x] + b == a + ([x] + b) && ([x] + b)[1..] == b;
    TreeConcat(fields, a, [x] + b);
    TreeConcat(fields, a, b);
    SetLast(Tree(fields, a), x, b);
  }

  /** Setting inside an ancestor's value is setting the dotted key. */
  lemma {:induction false} SetInside(a: seq<Override>, x: Override, b: seq<Override>, entry: Override)
    requires forall i :: 0 <= i < |b| ==> Apart(Split(x.key), Split(b[i].key))
    requires IsAncestor(x.key, entry.key)
    ensures var inner := x.(value := Object(SetPath(ObjectOr(x.value), Split(entry.key[|x.key| + 1..]), entry.value)));
            Tree(map[], a + [inner] + b) == Tree(map[], a + [x] + b + [entry])
  {
    hide SetPath, Split;
    var rest := Split(entry.key[|x.key| + 1..]);
    var inner := x.(value := Object(SetPath(ObjectOr(x.value), rest, entry.value)));
    AncestorIsPrefix(x.key, entry.key);
    MiddleLast(map[], a, x, b);
    MiddleLast(map[], a, inner, b);
    SetBelow(Tree(map[], a + b), Split(x.key), x.value, rest, entry.value);
    TreeOne(map[], a + [x] + b, entry);
  }

  lemma {:induction false} TreeOne(fields: map<string, Value>, a: seq<Override>, x: Override)
    ensures Tree(fields, a + [x]) == SetPath(Tree(fields, a), Split(x.key), x.value)
  {
    TreeConcat(fields, a, [x]);
    assert [x][1..] == [];
    assert Tree(Tree(fields, a), [x]) == Tree(SetPath(Tree(fields, a), Split(x.key), x.value), []);
  }

  /** Setting a key forgets an override at or below it, wherever it was set among those apart from it. */
  lemma {:induction false} SetForgets(a: seq<Override>, x: Override, b: seq<Override>, entry: Override)
    requires forall i :: 0 <= i < |b| ==> Apart(Split(x.key), Split(b[i].key))
    requires Split(entry.key) <= Split(x.key)
    ensures Tree(map[], a + [x] + b + [entry]) == Tree(map[], a + b + [entry])
  {
    hide SetPath, Split;
    MiddleLast(map[], a, x, b);
    TreeOne(map[], a + [x] + b, entry);
    TreeOne(map[], a + b, entry);
    SetOver(Tree(map[], a + b), Split(entry.key), entry.value, Split(x.key), x.value);
  }

  /** Keys neither the same nor one an ancestor of the other have paths apart. */
  lemma {:induction false} ApartKeys(a: string, b: string)
    ensures Apart(Split(a), Split(b)) <==> a != b && !IsAncestor(a, b) && !IsAncestor(b, a)
  {
    AncestorIsPrefix(a, b);
    AncestorIsPrefix(b, a);
    SplitInjective(a, b);
  }

  lemma {:induction false} FlatAround(a: seq<Override>, x: Override, b: seq<Override>)
    requires Flat(a + [x] + b)
    ensures Flat(a + b)
    ensures forall i :: 0 <= i < |a| ==> Before(a[i].key, x.key)
    ensures forall i :: 0 <= i < |b| ==> Before(x.key, b[i].key)
  {
    hide Before;
    var all := a + [x] + b;
    assert forall i :: 0 <= i < |a| ==> all[i] == a[i];
    assert all[|a|] == x;
    assert forall i :: 0 <= i < |b| ==> all[|a| + 1 + i] == b[i];
  }

  lemma {:induction false} FlatWith(a: seq<Override>, x: Override, b: seq<Override>)
    requires Flat(a + b)
    requires forall i :: 0 <= i < |a| ==> Before(a[i].key, x.key)
    requires forall i :: 0 <= i < |b| ==> Before(x.key, b[i].key)
    ensures Flat(a + [x] + b)
  {
    hide Before;
    var all, rest := a + [x] + b, a + b;
    forall i, j | 0 <= i < j < |all| ensures Before(all[i].key, all[j].key) {
      if i != |a| && j != |a| {
        assert all[i] == rest[if i < |a| then i else i - 1] && all[j] == rest[if j < |a| then j else j - 1];
      }
    }
  }

  /** The longest key of the map that is a dotted ancestor (-1: none). */
  method LongestAncestor(result: seq<Override>, key: string) returns (at: int)
    ensures -1 <= at < |result|
    ensures 0 <= at ==> IsAncestor(result[at].key, key)
    ensures 0 <= at ==> forall i :: 0 <= i < |result| && IsAncestor(result[i].key, key) ==> |result[i].key| <= |result[at].key|
    ensures at < 0 ==> forall i :: 0 <= i < |result| ==> !IsAncestor(result[i].key, key)
  {
    at := -1;
    for i := 0 to |result|
      invariant -1 <= at < i
      invariant 0 <= at ==> IsAncestor(result[at].key, key)
      invariant 0 <= at ==> forall j :: 0 <= j < i && IsAncestor(result[j].key, key) ==> |result[j].key| <= |result[at].key|
      invariant at < 0 ==> forall j :: 0 <= j < i ==> !IsAncestor(result[j].key, key)
    {
      if IsAncestor(result[i].key, key) && (at < 0 || |result[i].key| > |result[at].key|) { at := i; }
    }
  }

  lemma {:induction false} HasKeyAround(a: seq<Override>, x: Override, b: seq<Override>, key: string)
    ensures HasKey(a + [x] + b, key) <==> HasKey(a + b, key) || x.key == key
  {
    var all, rest := a + [x] + b, a + b;
    if HasKey(all, key) && x.key != key {
      var i :| 0 <= i < |all| && all[i].key == key;
      assert rest[if i < |a| then i else i - 1] == all[i];
    }
    if HasKey(rest, key) {
      var i :| 0 <= i < |rest| && rest[i].key == key;
      assert all[if i < |a| then i else i + 1] == rest[i];
    }
    assert all[|a|] == x;
  }

  lemma {:induction false} NotBelow(kept: seq<Override>, key: string)
    requires forall j :: 0 <= j < |kept| ==> !IsAncestor(key, kept[j].key)
    ensures forall k :: HasKey(kept, k) ==> !IsAncestor(key, k)
  {}

  /** Deletes the keys below a key about to be set. */
  method DeleteBelow(result: seq<Override>, entry: Override) returns (kept: seq<Override>)
    requires Flat(result)
    ensures Flat(kept) && Tree(map[], kept + [entry]) == Tree(map[], result + [entry])
    ensures forall key :: HasKey(kept, key) <==> HasKey(result, key) && !IsAncestor(entry.key, key)
  {
    hide Split, Tree, Flat, Before, HasKey, IsAncestor;
    kept := [];
    assert [] + result == result;
    for i := 0 to |result|
      invariant Flat(kept + result[i..])
      invariant Tree(map[], kept + result[i..] + [entry]) == Tree(map[], result + [entry])
      invariant forall key :: HasKey(kept + result[i..], key) ==> HasKey(result, key)
      invariant forall key :: HasKey(result, key) && !IsAncestor(entry.key, key) ==> HasKey(kept + result[i..], key)
      invariant forall j :: 0 <= j < |kept| ==> !IsAncestor(entry.key, kept[j].key)
    {
      var candidate, later := result[i], result[i + 1..];
      assert kept + result[i..] == kept + [candidate] + later;
      if IsAncestor(entry.key, candidate.key) {
        forall key { HasKeyAround(kept, candidate, later, key); }
        DeleteOne(kept, candidate, later, entry);
      } else {
        kept := kept + [candidate];
      }
    }
    assert kept + [] == kept;
    NotBelow(kept, entry.key);
  }

  lemma {:induction false} DeleteOne(a: seq<Override>, x: Override, b: seq<Override>, entry: Override)
    requires Flat(a + [x] + b) && IsAncestor(entry.key, x.key)
    ensures Flat(a + b) && Tree(map[], a + [x] + b + [entry]) == Tree(map[], a + b + [entry])
  {
    hide Split, Tree, Flat;
    FlatAround(a, x, b);
    AncestorIsPrefix(entry.key, x.key);
    SetForgets(a, x, b, entry);
  }

  lemma {:induction false} HasItsKey(result: seq<Override>, at: nat)
    requires at < |result|
    ensures HasKey(result, result[at].key)
  {}

  lemma {:induction false} SameKeys(a: seq<Override>, x: Override, y: Override, b: seq<Override>)
    requires x.key == y.key
    ensures forall k :: HasKey(a + [x] + b, k) <==> HasKey(a + [y] + b, k)
  {
    hide HasKey;
    forall k ensures HasKey(a + [x] + b, k) <==> HasKey(a + [y] + b, k) {
      HasKeyAround(a, x, b, k);
      HasKeyAround(a, y, b, k);
    }
  }

  /** `Map.set`: in place for a key there is, else at the end. */
  method SetKey(result: seq<Override>, entry: Override) returns (r: seq<Override>)
    requires Flat(result)
    requires forall k :: HasKey(result, k) ==> !IsAncestor(entry.key, k) && (k == "" || !IsAncestor(k, entry.key))
    ensures Flat(r) && Tree(map[], r) == Tree(map[], result + [entry])
    ensures forall k :: HasKey(r, k) <==> HasKey(result, k) || k == entry.key
  {
    hide Split, Tree, Flat, IsAncestor, Before;
    var at := 0;
    while at < |result| && result[at].key != entry.key
      invariant 0 <= at <= |result| && forall i :: 0 <= i < at ==> result[i].key != entry.key
    {
      at := at + 1;
    }
    Beside(result, entry);
    hide HasKey;
    if at < |result| {
      var a, b := result[..at], result[at + 1..];
      assert result == a + [result[at]] + b;
      SetAgain(a, result[at], b, entry);
      SameKeys(a, result[at], entry, b);
      HasItsKey(result, at);
      r := result[at := entry];
      assert r == a + [entry] + b;
    } else {
      r := result + [entry];
      forall k { HasKeyAround(result, entry, [], k); }
      assert result + [] == result;
      FlatWith(result, entry, []);
      assert r == result + [entry] + [];
    }
  }

  lemma {:induction false} Beside(result: seq<Override>, entry: Override)
    requires forall k :: HasKey(result, k) ==> !IsAncestor(entry.key, k) && (k == "" || !IsAncestor(k, entry.key))
    ensures forall i :: 0 <= i < |result| && result[i].key != entry.key ==> Before(result[i].key, entry.key)
  {
    hide Split, IsAncestor;
    forall i | 0 <= i < |result| && result[i].key != entry.key ensures Before(result[i].key, entry.key) {
      assert HasKey(result, result[i].key);
      ApartKeys(result[i].key, entry.key);
    }
  }

  lemma {:induction false} SetAgain(a: seq<Override>, x: Override, b: seq<Override>, entry: Override)
    requires Flat(a + [x] + b) && x.key == entry.key
    requires forall k :: HasKey(a + [x] + b, k) ==> !IsAncestor(entry.key, k)
    ensures Flat(a + [entry] + b) && Tree(map[], a + [entry] + b) == Tree(map[], a + [x] + b + [entry])
  {
    hide Split, Tree, Flat, IsAncestor;
    FlatAround(a, x, b);
    FlatWith(a, entry, b);
    forall i | 0 <= i < |b| ensures Apart(Split(x.key), Split(b[i].key)) {
      assert (a + [x] + b)[|a| + 1 + i] == b[i];
      assert HasKey(a + [x] + b, b[i].key);
    }
    hide Before, HasKey, Apart;
    SetForgets(a, x, b, entry);
    MiddleLast(map[], a, entry, b);
    TreeOne(map[], a + b, entry);
  }

  /** An override whose ancestor is in the map is set inside the ancestor's value. */
  method SetInAncestor(result: seq<Override>, at: nat, entry: Override) returns (r: seq<Override>)
    requires Flat(result) && at < |result| && IsAncestor(result[at].key, entry.key) && result[at].key != ""
    ensures Flat(r) && Tree(map[], r) == Tree(map[], result + [entry])
    ensures forall k :: HasKey(r, k) <==> HasKey(result, k)
  {
    hide Split, Tree, SetPath, HasKey;
    var ancestor := result[at];
    var merged := SetPath(ObjectOr(ancestor.value), Split(entry.key[|ancestor.key| + 1..]), entry.value);
    var inner := ancestor.(value := Object(merged));
    var a, b := result[..at], result[at + 1..];
    assert result == a + [ancestor] + b;
    FlatAround(a, ancestor, b);
    hide Flat, Apart;
    SetInside(a, ancestor, b, entry);
    FlatWith(a, inner, b);
    SameKeys(a, ancestor, inner, b);
    r := result[at := inner];
    assert r == a + [inner] + b;
  }

  /** With no ancestor but the empty key, the keys below go and the key is set. */
  method SetNew(result: seq<Override>, entry: Override) returns (r: seq<Override>)
    requires Flat(result) && forall k :: HasKey(result, k) && IsAncestor(k, entry.key) ==> k == ""
    ensures Flat(r) && Tree(map[], r) == Tree(map[], result + [entry])
    ensures forall k :: HasKey(r, k) <==> k == entry.key || (HasKey(result, k) && !IsAncestor(entry.key, k))
  {
    hide Split, Tree, Flat, IsAncestor, HasKey;
    var kept := DeleteBelow(result, entry);
    r := SetKey(kept, entry);
  }

  // ---- which keys there are ----

  lemma {:induction false} DottedKey(overrides: seq<Override>)
    ensures HasDotted(overrides) <==> exists k :: HasKey(overrides, k) && IsAncestor("", k)
  {
    if HasDotted(overrides) {
      var i :| 0 <= i < |overrides| && IsAncestor("", overrides[i].key);
      assert HasKey(overrides, overrides[i].key);
    }
  }

  lemma {:induction false} HasKeyOne(entries: seq<Override>, entry: Override)
    ensures HasKey(entries + [entry], "") <==> HasKey(entries, "") || entry.key == ""
  {
    HasKeyAround(entries, entry, [], "");
    assert entries + [entry] + [] == entries + [entry] && entries + [] == entries;
  }

  lemma {:induction false} DottedLastOne(entries: seq<Override>, entry: Override)
    ensures DottedLast(entries + [entry]) <==> IsAncestor("", entry.key) || (DottedLast(entries) && entry.key != "")
  {
    hide IsAncestor;
    var all := entries + [entry];
    assert all[|entries|] == entry;
    assert IsAncestor("", "") == false by { EmptyAncestor(); }
    if DottedLast(entries) && entry.key != "" {
      var j :| 0 <= j < |entries| && IsAncestor("", entries[j].key) && forall k :: j < k < |entries| ==> entries[k].key != "";
      assert all[j] == entries[j];
      assert forall k :: j < k < |all| ==> all[k].key != "";
    }
    if DottedLast(all) && !IsAncestor("", entry.key) {
      var j :| 0 <= j < |all| && IsAncestor("", all[j].key) && forall k :: j < k < |all| ==> all[k].key != "";
      assert all[|entries|].key != "" && all[j] == entries[j];
      assert forall k :: j < k < |entries| ==> all[k] == entries[k];
    }
  }

  lemma {:induction false} EmptyAncestor()
    ensures !IsAncestor("", "") && forall a, b :: a != "" && IsAncestor(a, b) ==> (IsAncestor("", a) <==> IsAncestor("", b))
  {
    forall a, b | a != "" && IsAncestor(a, b) ensures IsAncestor("", a) <==> IsAncestor("", b) {
      assert a[0] == (a + ".")[0] == b[0];
      assert IsAncestor("", a) <==> a[0] == '.';
      assert IsAncestor("", b) <==> b[0] == '.';
    }
  }

  /** What a step does to the keys keeps track of whether the empty key and one below it are in the map. */
  lemma {:induction false} KeysTracked(entries: seq<Override>, entry: Override, result: seq<Override>, r: seq<Override>)
    requires HasKey(result, "") <==> HasKey(entries, "")
    requires HasDotted(result) <==> DottedLast(entries)
    requires || ((exists a :: a != "" && HasKey(result, a) && IsAncestor(a, entry.key)) && forall k :: HasKey(r, k) <==> HasKey(result, k))
             || (forall k :: HasKey(r, k) <==> k == entry.key || (HasKey(result, k) && !IsAncestor(entry.key, k)))
    ensures HasKey(r, "") <==> HasKey(entries + [entry], "")
    ensures HasDotted(r) <==> DottedLast(entries + [entry])
  {
    hide HasKey, HasDotted, DottedLast, IsAncestor;
    DottedKey(result);
    DottedKey(r);
    HasKeyOne(entries, entry);
    DottedLastOne(entries, entry);
    EmptyAncestor();
    NothingAboveEmpty();
  }

  lemma {:induction false} NothingAboveEmpty()
    ensures forall key :: !IsAncestor(key, "")
  {}

  lemma {:induction false} WhereNotFlat(result: seq<Override>)
    requires Flat(result)
    ensures forall i, j :: 0 <= i < j < |result| ==> result[i].key != result[j].key
    ensures forall i, j :: 0 <= i < |result| && 0 <= j < |result| && IsAncestor(result[i].key, result[j].key) ==> result[i].key == ""
  {
    hide Split, IsAncestor;
    forall i, j | 0 <= i < |result| && 0 <= j < |result| && i != j
      ensures result[i].key != result[j].key && (IsAncestor(result[i].key, result[j].key) ==> result[i].key == "")
    {
      ApartKeys(result[i].key, result[j].key);
      ApartKeys(result[j].key, result[i].key);
      NothingAboveEmpty();
    }
    forall i | 0 <= i < |result| ensures !IsAncestor(result[i].key, result[i].key) {
      AncestorIsPrefix(result[i].key, result[i].key);
    }
  }

  /** The longest ancestor being empty, the empty key is the only one. */
  lemma {:induction false} OnlyEmptyAbove(result: seq<Override>, key: string, at: int)
    requires -1 <= at < |result| && (at >= 0 ==> result[at].key == "")
    requires at >= 0 ==> forall i :: 0 <= i < |result| && IsAncestor(result[i].key, key) ==> |result[i].key| <= |result[at].key|
    requires at < 0 ==> forall i :: 0 <= i < |result| ==> !IsAncestor(result[i].key, key)
    ensures forall k :: HasKey(result, k) && IsAncestor(k, key) ==> k == ""
  {
    hide IsAncestor;
    forall k | HasKey(result, k) && IsAncestor(k, key) ensures k == "" {
      var i :| 0 <= i < |result| && result[i].key == k;
      if at < 0 { assert false; }
    }
  }

  /**
   * The flat map of all overrides. Its tree is the one that setting every override in order gives, for all overrides.
   * No key of it is a dotted ancestor of another exactly when the empty key is not set before a last key below it.
   */
  method MergedOverrides(entries: seq<Override>) returns (result: seq<Override>)
    ensures Tree(map[], result) == Tree(map[], entries)
    ensures forall i, j :: 0 <= i < j < |result| ==> result[i].key != result[j].key
    ensures forall i, j :: 0 <= i < |result| && 0 <= j < |result| && IsAncestor(result[i].key, result[j].key) ==> result[i].key == ""
    ensures (exists i, j :: 0 <= i < |result| && 0 <= j < |result| && IsAncestor(result[i].key, result[j].key)) <==> Unflattened(entries)
  {
    hide Split, Tree, SetPath, IsAncestor, HasKey, HasDotted, DottedLast, Before;
    result := [];
    assert entries[..0] == [];
    assert Flat([]);
    NoKeys();
    for n := 0 to |entries|
      invariant Flat(result) && Tree(map[], result) == Tree(map[], entries[..n])
      invariant (HasKey(result, "") <==> HasKey(entries[..n], "")) && (HasDotted(result) <==> DottedLast(entries[..n]))
    {
      hide Flat;
      var entry := entries[n];
      assert entries[..n + 1] == entries[..n] + [entry];
      TreeOne(map[], entries[..n], entry);
      TreeOne(map[], result, entry);
      ghost var was := result;
      var at := LongestAncestor(result, entry.key);
      if at >= 0 && result[at].key != "" {
        HasItsKey(result, at);
        result := SetInAncestor(result, at, entry);
        KeysTracked(entries[..n], entry, was, result);
      } else {
        OnlyEmptyAbove(result, entry.key, at);
        result := SetNew(result, entry);
        KeysTracked(entries[..n], entry, was, result);
      }
    }
    assert entries[..|entries|] == entries;
    WhereNotFlat(result);
    EmptyBeside(result);
  }

  lemma {:induction false} NoKeys()
    ensures !HasKey([], "") && !HasDotted([]) && !DottedLast([])
  {}

  lemma {:induction false} EmptyBeside(result: seq<Override>)
    requires forall i, j :: 0 <= i < |result| && 0 <= j < |result| && IsAncestor(result[i].key, result[j].key) ==> result[i].key == ""
    ensures (exists i, j :: 0 <= i < |result| && 0 <= j < |result| && IsAncestor(result[i].key, result[j].key)) <==> HasKey(result, "") && HasDotted(result)
  {
    hide IsAncestor;
  }

  lemma {:induction false} EmptyKeySplits()
    ensures Split("") == [""] && Split(".a") == ["", "a"]
  {
    hide Split;
    assert "a"[1..] == "" && FirstDot("") < 0 && FirstDot("a") < 0;
    hide FirstDot;
    NoDots("");
    NoDots("a");
    SplitDotted("", "a");
    assert "" + "." + "a" == ".a";
    assert [""] + ["a"] == ["", "a"];
  }

  lemma {:induction false} SetBelowEmpty(v: Value, w: Value)
    ensures SetPath(SetPath(map[], [""], v), ["", "a"], w) == map["" := Object(ObjectOr(v)["a" := w])]
  {
    var first := SetPath(map[], [""], v);
    assert first == map["" := v] && Child(first, "") == ObjectOr(v);
    assert ["", "a"][1..] == ["a"];
  }

  /** The empty key set before a dotted one: the map keeps both, the empty one an ancestor of the other. */
  lemma {:induction false} EmptyKeyStays(v: Value, w: Value)
    ensures var entries := [Override("", v), Override(".a", w)];
            Unflattened(entries) && IsAncestor("", ".a") && Tree(map[], entries) == map["" := Object(ObjectOr(v)["a" := w])]
  {
    var entries := [Override("", v), Override(".a", w)];
    EmptyKeySplits();
    SetBelowEmpty(v, w);
    hide Split, SetPath, ObjectOr;
    assert entries[..1] + [entries[1]] == entries && entries[..1] == [] + [entries[0]];
    TreeOne(map[], entries[..1], entries[1]);
    TreeOne(map[], [], entries[0]);
    assert IsAncestor("", ".a") && entries[0].key == "" && IsAncestor("", entries[1].key);
  }
}
