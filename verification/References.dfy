// The step references inside a node's config, at any depth.
module References {
  import opened Digraph
  import opened Canvas
  import Idempotency

  datatype Reference = Reference(field: string, stepId: Node)

  predicate Found(refs: seq<Reference>, id: Node) {
    exists x :: x in refs && x.stepId == id
  }

  /** The value names the step somewhere inside. */
  predicate Mentions(v: Value, id: Node) {
    match v
    case Text(_, refs) => id in refs
    case List(items) => exists i :: 0 <= i < |items| && Mentions(items[i], id)
    case Object(fields) => exists i :: 0 <= i < |fields| && Mentions(fields[i].value, id)
    case _ => false
  }

  predicate FieldsMention(fields: seq<Field>, id: Node) {
    exists i :: 0 <= i < |fields| && Mentions(fields[i].value, id)
  }

  predicate ItemsMention(items: seq<Value>, id: Node) {
    exists i :: 0 <= i < |items| && Mentions(items[i], id)
  }

  predicate NodeMentions(n: CanvasNode, id: Node) {
    exists k :: k in n.data && Mentions(n.data[k], id)
  }

  // ---- what the collector lists ----

  function RefsAt(path: string, ids: seq<Node>): (r: seq<Reference>)
    ensures |r| == |ids| && forall i :: 0 <= i < |ids| ==> r[i] == Reference(path, ids[i])
  {
    seq(|ids|, i requires 0 <= i < |ids| => Reference(path, ids[i]))
  }

  function PathTo(prefix: string, name: string): string {
    if prefix == "" then name else prefix + "." + name
  }

  function Collect(fields: seq<Field>, prefix: string): seq<Reference> {
    if fields == [] then []
    else
      var f := fields[|fields| - 1];
      Collect(fields[..|fields| - 1], prefix) + CollectValue(f.value, PathTo(prefix, f.name))
  }

  function CollectValue(v: Value, path: string): seq<Reference> {
    match v
    case Text(_, refs) => RefsAt(path, refs)
    case List(items) => CollectItems(items, path)
    case Object(fields) => Collect(fields, path)
    case _ => []
  }

  function CollectItems(items: seq<Value>, path: string): seq<Reference> {
    if items == [] then []
    else
      var k := |items| - 1;
      CollectItems(items[..k], path) + CollectItem(items[k], path + "[" + Idempotency.Decimal(k) + "]")
  }

  /** A list inside a list is read like an object keyed by position. */
  function CollectItem(v: Value, path: string): seq<Reference> {
    match v
    case Text(_, refs) => RefsAt(path, refs)
    case List(items) => CollectIndexed(items, path)
    case Object(fields) => Collect(fields, path)
    case _ => []
  }

  function CollectIndexed(items: seq<Value>, prefix: string): seq<Reference> {
    if items == [] then []
    else
      var k := |items| - 1;
      CollectIndexed(items[..k], prefix) + CollectValue(items[k], PathTo(prefix, Idempotency.Decimal(k)))
  }

  method CollectReferences(fields: seq<Field>, prefix: string) returns (found: seq<Reference>)
    ensures found == Collect(fields, prefix)
    decreases fields
  {
    found := [];
    for i := 0 to |fields|
      invariant found == Collect(fields[..i], prefix)
    {
      var f := fields[i];
      assert fields[..i + 1][..i] == fields[..i];
      var path := PathTo(prefix, f.name);
      match f.value {
        case Text(_, refs) => found := found + RefsAt(path, refs);
        case List(items) =>
          var more := CollectList(items, path);
          found := found + more;
        case Object(inner) =>
          var more := CollectReferences(inner, path);
          found := found + more;
        case _ =>
      }
    }
    assert fields[..|fields|] == fields;
  }

  method CollectList(items: seq<Value>, path: string) returns (found: seq<Reference>)
    ensures found == CollectItems(items, path)
    decreases items
  {
    found := [];
    for i := 0 to |items|
      invariant found == CollectItems(items[..i], path)
    {
      assert items[..i + 1][..i] == items[..i];
      var at := path + "[" + Idempotency.Decimal(i) + "]";
      match items[i] {
        case Text(_, refs) => found := found + RefsAt(at, refs);
        case List(inner) => found := found + CollectIndexed(inner, at);
        case Object(inner) =>
          var more := CollectReferences(inner, at);
          found := found + more;
        case _ =>
      }
    }
    assert items[..|items|] == items;
  }

  // ---- it finds every mention and nothing else ----

  lemma FoundConcat(a: seq<Reference>, b: seq<Reference>, id: Node)
    ensures Found(a + b, id) <==> Found(a, id) || Found(b, id)
  {
    if x :| x in a && x.stepId == id {
      assert x in a + b;
    }
    if x :| x in b && x.stepId == id {
      assert x in a + b;
    }
  }

  lemma RefsAtFound(path: string, ids: seq<Node>, id: Node)
    ensures Found(RefsAt(path, ids), id) <==> id in ids
  {
    if id in ids {
      var i :| 0 <= i < |ids| && ids[i] == id;
      assert RefsAt(path, ids)[i] in RefsAt(path, ids);
    }
  }

  lemma {:induction false} CollectFinds(fields: seq<Field>, prefix: string, id: Node)
    ensures Found(Collect(fields, prefix), id) <==> FieldsMention(fields, id)
    decreases fields
  {
    if fields != [] {
      var n := |fields| - 1;
      var f := fields[n];
      CollectFinds(fields[..n], prefix, id);
      CollectValueFinds(f.value, PathTo(prefix, f.name), id);
      FoundConcat(Collect(fields[..n], prefix), CollectValue(f.value, PathTo(prefix, f.name)), id);
      FieldsMentionSnoc(fields, id);
      hide FieldsMention;
      hide Mentions;
      hide Found;
    }
  }

  lemma FieldsMentionSnoc(fields: seq<Field>, id: Node)
    requires fields != []
    ensures FieldsMention(fields, id) <==>
      FieldsMention(fields[..|fields| - 1], id) || Mentions(fields[|fields| - 1].value, id)
  {
    hide Mentions;
    var n := |fields| - 1;
    if i :| 0 <= i < n && Mentions(fields[i].value, id) {
      assert fields[..n][i] == fields[i];
    }
    if i :| 0 <= i < |fields[..n]| && Mentions(fields[..n][i].value, id) {
      assert fields[..n][i] == fields[i];
    }
  }

  lemma ItemsMentionSnoc(items: seq<Value>, id: Node)
    requires items != []
    ensures ItemsMention(items, id) <==> ItemsMention(items[..|items| - 1], id) || Mentions(items[|items| - 1], id)
  {
    hide Mentions;
    var n := |items| - 1;
    if i :| 0 <= i < n && Mentions(items[i], id) {
      assert items[..n][i] == items[i];
    }
    if i :| 0 <= i < |items[..n]| && Mentions(items[..n][i], id) {
      assert items[..n][i] == items[i];
    }
  }

  lemma {:induction false} CollectValueFinds(v: Value, path: string, id: Node)
    ensures Found(CollectValue(v, path), id) <==> Mentions(v, id)
    decreases v
  {
    match v {
      case Text(_, refs) => RefsAtFound(path, refs, id);
      case List(items) => CollectItemsFinds(items, path, id);
      case Object(fields) => CollectFinds(fields, path, id);
      case _ =>
    }
  }

  lemma {:induction false} CollectItemsFinds(items: seq<Value>, path: string, id: Node)
    ensures Found(CollectItems(items, path), id) <==> ItemsMention(items, id)
    decreases items
  {
    if items != [] {
      var n := |items| - 1;
      var at := path + "[" + Idempotency.Decimal(n) + "]";
      CollectItemsFinds(items[..n], path, id);
      CollectItemFinds(items[n], at, id);
      FoundConcat(CollectItems(items[..n], path), CollectItem(items[n], at), id);
      ItemsMentionSnoc(items, id);
      hide ItemsMention;
      hide Mentions;
      hide Found;
    }
  }

  lemma {:induction false} CollectItemFinds(v: Value, path: string, id: Node)
    ensures Found(CollectItem(v, path), id) <==> Mentions(v, id)
    decreases v
  {
    match v {
      case Text(_, refs) => RefsAtFound(path, refs, id);
      case List(items) => CollectIndexedFinds(items, path, id);
      case Object(fields) => CollectFinds(fields, path, id);
      case _ =>
    }
  }

  lemma {:induction false} CollectIndexedFinds(items: seq<Value>, prefix: string, id: Node)
    ensures Found(CollectIndexed(items, prefix), id) <==> ItemsMention(items, id)
    decreases items
  {
    if items != [] {
      var n := |items| - 1;
      var at := PathTo(prefix, Idempotency.Decimal(n));
      CollectIndexedFinds(items[..n], prefix, id);
      CollectValueFinds(items[n], at, id);
      FoundConcat(CollectIndexed(items[..n], prefix), CollectValue(items[n], at), id);
      ItemsMentionSnoc(items, id);
      hide ItemsMention;
      hide Mentions;
      hide Found;
    }
  }

  // ---- and names the place of each ----

  /** A name under a path; a field of the node itself goes by its name. */
  function Dotted(path: string, name: string): string {
    (if path == "" then "" else path + ".") + name
  }

  lemma SameDotted(path: string, name: string)
    ensures PathTo(path, name) == Dotted(path, name)
  {
    if path != "" {
      assert path + "." + name == (path + ".") + name;
    }
  }

  /** Under the path of v, this place holds a text that names the step. */
  predicate NamesAt(v: Value, path: string, field: string, id: Node)
    decreases v, 0
  {
    match v
    case Text(_, refs) => field == path && id in refs
    case List(items) =>
      exists i :: 0 <= i < |items| && EntryNames(items[i], path + "[" + Idempotency.Decimal(i) + "]", field, id)
    case Object(fields) =>
      exists i :: 0 <= i < |fields| && NamesAt(fields[i].value, Dotted(path, fields[i].name), field, id)
    case _ => false
  }

  /** An entry of a list; a list in it has its positions for names. */
  predicate EntryNames(v: Value, path: string, field: string, id: Node)
    decreases v, 1
  {
    match v
    case List(items) =>
      exists i :: 0 <= i < |items| && NamesAt(items[i], Dotted(path, Idempotency.Decimal(i)), field, id)
    case _ => NamesAt(v, path, field, id)
  }

  predicate FieldsName(fields: seq<Field>, prefix: string, field: string, id: Node) {
    exists i :: 0 <= i < |fields| && NamesAt(fields[i].value, Dotted(prefix, fields[i].name), field, id)
  }

  predicate ListNames(items: seq<Value>, path: string, field: string, id: Node) {
    exists i :: 0 <= i < |items| && EntryNames(items[i], path + "[" + Idempotency.Decimal(i) + "]", field, id)
  }

  predicate IndexedNames(items: seq<Value>, path: string, field: string, id: Node) {
    exists i :: 0 <= i < |items| && NamesAt(items[i], Dotted(path, Idempotency.Decimal(i)), field, id)
  }

  /** Some field of the node's data names the step, at this place. */
  predicate NodeNames(n: CanvasNode, field: string, id: Node) {
    exists k :: k in n.data && NamesAt(n.data[k], k, field, id)
  }

  lemma FieldsNameSnoc(fields: seq<Field>, prefix: string, field: string, id: Node)
    requires fields != []
    ensures var n := |fields| - 1;
      FieldsName(fields, prefix, field, id) <==>
        FieldsName(fields[..n], prefix, field, id)
        || NamesAt(fields[n].value, Dotted(prefix, fields[n].name), field, id)
  {
    hide NamesAt;
    assert forall i :: 0 <= i < |fields| - 1 ==> fields[..|fields| - 1][i] == fields[i];
  }

  lemma ListNamesSnoc(items: seq<Value>, path: string, field: string, id: Node)
    requires items != []
    ensures var n := |items| - 1;
      ListNames(items, path, field, id) <==>
        ListNames(items[..n], path, field, id)
        || EntryNames(items[n], path + "[" + Idempotency.Decimal(n) + "]", field, id)
  {
    hide EntryNames;
    assert forall i :: 0 <= i < |items| - 1 ==> items[..|items| - 1][i] == items[i];
  }

  lemma IndexedNamesSnoc(items: seq<Value>, path: string, field: string, id: Node)
    requires items != []
    ensures var n := |items| - 1;
      IndexedNames(items, path, field, id) <==>
        IndexedNames(items[..n], path, field, id)
        || NamesAt(items[n], Dotted(path, Idempotency.Decimal(n)), field, id)
  {
    hide NamesAt;
    assert forall i :: 0 <= i < |items| - 1 ==> items[..|items| - 1][i] == items[i];
  }

  lemma {:induction false} CollectNames(fields: seq<Field>, prefix: string, field: string, id: Node)
    ensures Reference(field, id) in Collect(fields, prefix) <==> FieldsName(fields, prefix, field, id)
    decreases fields
  {
    if fields != [] {
      var n := |fields| - 1;
      SameDotted(prefix, fields[n].name);
      CollectNames(fields[..n], prefix, field, id);
      CollectValueNames(fields[n].value, PathTo(prefix, fields[n].name), field, id);
      FieldsNameSnoc(fields, prefix, field, id);
      hide FieldsName;
      hide NamesAt;
    }
  }

  lemma {:induction false} CollectValueNames(v: Value, path: string, field: string, id: Node)
    ensures Reference(field, id) in CollectValue(v, path) <==> NamesAt(v, path, field, id)
    decreases v
  {
    match v {
      case Text(_, refs) => RefsAtNames(path, refs, field, id);
      case List(items) => CollectItemsNames(items, path, field, id);
      case Object(fields) => CollectNames(fields, path, field, id);
      case _ =>
    }
  }

  lemma RefsAtNames(path: string, ids: seq<Node>, field: string, id: Node)
    ensures Reference(field, id) in RefsAt(path, ids) <==> field == path && id in ids
  {
    if id in ids {
      var i :| 0 <= i < |ids| && ids[i] == id;
      assert RefsAt(path, ids)[i] in RefsAt(path, ids);
    }
  }

  lemma {:induction false} CollectItemsNames(items: seq<Value>, path: string, field: string, id: Node)
    ensures Reference(field, id) in CollectItems(items, path) <==> ListNames(items, path, field, id)
    decreases items
  {
    if items != [] {
      var n := |items| - 1;
      CollectItemsNames(items[..n], path, field, id);
      CollectItemNames(items[n], path + "[" + Idempotency.Decimal(n) + "]", field, id);
      ListNamesSnoc(items, path, field, id);
      hide ListNames;
      hide EntryNames;
    }
  }

  lemma {:induction false} CollectItemNames(v: Value, path: string, field: string, id: Node)
    ensures Reference(field, id) in CollectItem(v, path) <==> EntryNames(v, path, field, id)
    decreases v
  {
    match v {
      case Text(_, refs) => RefsAtNames(path, refs, field, id);
      case List(items) => CollectIndexedNames(items, path, field, id);
      case Object(fields) => CollectNames(fields, path, field, id);
      case _ =>
    }
  }

  lemma {:induction false} CollectIndexedNames(items: seq<Value>, path: string, field: string, id: Node)
    ensures Reference(field, id) in CollectIndexed(items, path) <==> IndexedNames(items, path, field, id)
    decreases items
  {
    if items != [] {
      var n := |items| - 1;
      SameDotted(path, Idempotency.Decimal(n));
      CollectIndexedNames(items[..n], path, field, id);
      CollectValueNames(items[n], PathTo(path, Idempotency.Decimal(n)), field, id);
      IndexedNamesSnoc(items, path, field, id);
      hide IndexedNames;
      hide NamesAt;
    }
  }

  // ---- a node's own data ----

  /** Object.entries, in whatever order the fields come. */
  method Entries(data: map<string, Value>) returns (fields: seq<Field>)
    ensures forall f :: f in fields <==> f.name in data && data[f.name] == f.value
  {
    fields := [];
    var left := data.Keys;
    while left != {}
      invariant left <= data.Keys
      invariant forall f :: f in fields <==> f.name in data.Keys - left && data[f.name] == f.value
    {
      var k :| k in left;
      fields := fields + [Field(k, data[k])];
      left := left - {k};
    }
  }

  method ReferencesOf(n: CanvasNode) returns (refs: seq<Reference>)
    ensures forall id :: Found(refs, id) <==> NodeMentions(n, id)
    ensures forall x :: x in refs <==> NodeNames(n, x.field, x.stepId)
  {
    var fields := Entries(n.data);
    refs := CollectReferences(fields, "");
    forall field, id
      ensures Reference(field, id) in refs <==> NodeNames(n, field, id)
    {
      CollectNames(fields, "", field, id);
      EntriesName(n, fields, field, id);
      hide NodeNames;
      hide FieldsName;
    }
    forall id
      ensures Found(refs, id) <==> NodeMentions(n, id)
    {
      CollectFinds(fields, "", id);
      EntriesMention(n, fields, id);
      hide NodeMentions;
      hide FieldsMention;
      hide Found;
    }
  }

  lemma EntriesName(n: CanvasNode, fields: seq<Field>, field: string, id: Node)
    requires forall f :: f in fields <==> f.name in n.data && n.data[f.name] == f.value
    ensures FieldsName(fields, "", field, id) <==> NodeNames(n, field, id)
  {
    hide NamesAt;
    forall i | 0 <= i < |fields|
      ensures Dotted("", fields[i].name) == fields[i].name
    {
      assert "" + fields[i].name == fields[i].name;
    }
    if k :| k in n.data && NamesAt(n.data[k], k, field, id) {
      assert Field(k, n.data[k]) in fields;
      var i :| 0 <= i < |fields| && fields[i] == Field(k, n.data[k]);
    }
    if i :| 0 <= i < |fields| && NamesAt(fields[i].value, Dotted("", fields[i].name), field, id) {
      assert fields[i] in fields;
    }
  }

  lemma EntriesMention(n: CanvasNode, fields: seq<Field>, id: Node)
    requires forall f :: f in fields <==> f.name in n.data && n.data[f.name] == f.value
    ensures FieldsMention(fields, id) <==> NodeMentions(n, id)
  {
    if k :| k in n.data && Mentions(n.data[k], id) {
      assert Field(k, n.data[k]) in fields;
      var i :| 0 <= i < |fields| && fields[i] == Field(k, n.data[k]);
    }
    if i :| 0 <= i < |fields| && Mentions(fields[i].value, id) {
      assert fields[i] in fields;
    }
  }
}
