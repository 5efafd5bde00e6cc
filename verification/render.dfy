/**
 * The section renderer `createSectionHTML` (script.js:128-150): it maps every
 * entry of a section to HTML and joins the pieces. A scalar entry becomes one
 * label/value fragment; a nested entry becomes one fragment per leaf. Nothing
 * deeper than one level of nesting exists, and no text is HTML-escaped.
 *
 * `RenderSection` is written as the source's map-and-join. `Flatten` is its
 * reference: the ordered list of (label, value) items the page shows, with
 * lemmas on their number, order, labels and on where they appear in the HTML.
 */
module Render {
  import opened Text

  /** A section's value: already-formatted display text, or one level of named display texts. */
  datatype Value = Scalar(s: string) | Nested(m: seq<(string, string)>)

  /** A section: its entries in the order the object literal declares them. */
  type Section = seq<(string, Value)>

  /** The static table of human-readable labels. */
  type LabelTable = map<string, string>

  /**
   * `labels[lookup] || fallback`: the table's label when it has a non-empty one
   * for `lookup`, otherwise `fallback`. It never fails and yields nothing else.
   */
  function Label(labels: LabelTable, lookup: string, fallback: string): (r: string)
    ensures lookup in labels && labels[lookup] != "" ==> r == labels[lookup]
    ensures !(lookup in labels && labels[lookup] != "") ==> r == fallback
  {
    if lookup in labels && labels[lookup] != "" then labels[lookup] else fallback
  }

  // ---------------------------------------------------------------------
  // The renderer as the source writes it
  // ---------------------------------------------------------------------

  /** Indentation of the closing tag in the scalar template (script.js:143-146). */
  const ScalarIndent: nat := 20
  /** Indentation of the closing tag in the nested-leaf template (script.js:135-138). */
  const NestedIndent: nat := 28

  function Spaces(n: nat): (r: string)
    ensures |r| == n && forall i :: 0 <= i < n ==> r[i] == ' '
  {
    seq(n, _ => ' ')
  }

  /** The text between a fragment's label and its value. */
  function Middle(indent: nat): string {
    ":</span>\n" + Spaces(indent + 4) + "<span class=\"info-value\">"
  }

  /**
   * One label/value fragment, byte for byte as the template literal writes it;
   * `indent` is the indentation of its closing tag.
   */
  function Fragment(indent: nat, labelText: string, value: string): string {
    "<div class=\"info-item\">\n" + Spaces(indent + 4) + "<span class=\"info-label\">" + labelText
      + Middle(indent) + value + "</span>\n" + Spaces(indent) + "</div>"
  }

  /** `parts.join('')`. */
  function Join(parts: seq<string>): string {
    if parts == [] then "" else parts[0] + Join(parts[1..])
  }

  /** The fragments of a nested entry's leaves, joined. */
  function RenderLeaves(key: string, m: seq<(string, string)>, labels: LabelTable): string {
    Join(seq(|m|, i requires 0 <= i < |m| =>
      Fragment(NestedIndent, Label(labels, key + "." + m[i].0, m[i].0), m[i].1)))
  }

  function RenderEntry(key: string, v: Value, labels: LabelTable): string {
    match v
    case Nested(m) => RenderLeaves(key, m, labels)
    case Scalar(s) => Fragment(ScalarIndent, Label(labels, key, key), s)
  }

  /** `createSectionHTML(section, labels)`. */
  function RenderSection(sec: Section, labels: LabelTable): string {
    Join(seq(|sec|, i requires 0 <= i < |sec| => RenderEntry(sec[i].0, sec[i].1, labels)))
  }

  // ---------------------------------------------------------------------
  // Reference: the list of shown items
  // ---------------------------------------------------------------------

  /** One shown label/value pair, with the indentation of the template it uses. */
  datatype Item = Item(labelText: string, value: string, indent: nat)

  /** The items one entry shows: one for a scalar, one per leaf for a nested value. */
  function EntryItems(key: string, v: Value, labels: LabelTable): (items: seq<Item>)
    ensures v.Scalar? ==> |items| == 1
    ensures v.Nested? ==> |items| == |v.m|
  {
    match v
    case Scalar(s) => [Item(Label(labels, key, key), s, ScalarIndent)]
    case Nested(m) =>
      seq(|m|, j requires 0 <= j < |m| => Item(Label(labels, key + "." + m[j].0, m[j].0), m[j].1, NestedIndent))
  }

  /** The items of a whole section, entry after entry. */
  function Flatten(sec: Section, labels: LabelTable): seq<Item> {
    if sec == [] then [] else EntryItems(sec[0].0, sec[0].1, labels) + Flatten(sec[1..], labels)
  }

  function Fragments(items: seq<Item>): (fs: seq<string>)
    ensures |fs| == |items|
  {
    seq(|items|, i requires 0 <= i < |items| => Fragment(items[i].indent, items[i].labelText, items[i].value))
  }

  /** How many items a section shows: one per scalar entry plus one per leaf of each nested entry. */
  function LeafCount(sec: Section): nat {
    if sec == [] then 0
    else (match sec[0].1 case Scalar(_) => 1 case Nested(m) => |m|) + LeafCount(sec[1..])
  }

  // ---------------------------------------------------------------------
  // Lemmas
  // ---------------------------------------------------------------------

  lemma {:induction false} JoinAppend(a: seq<string>, b: seq<string>)
    ensures Join(a + b) == Join(a) + Join(b)
  {
    if a != [] {
      assert (a + b)[1..] == a[1..] + b;
      JoinAppend(a[1..], b);
    } else {
      assert a + b == b;
    }
  }

  lemma {:induction false} LeafCountAppend(a: Section, b: Section)
    ensures LeafCount(a + b) == LeafCount(a) + LeafCount(b)
  {
    if a != [] {
      assert (a + b)[1..] == a[1..] + b;
      LeafCountAppend(a[1..], b);
    } else {
      assert a + b == b;
    }
  }

  /** The section shows exactly one item per scalar entry plus one per nested leaf. */
  lemma {:induction false} FlattenCount(sec: Section, labels: LabelTable)
    ensures |Flatten(sec, labels)| == LeafCount(sec)
  {
    if sec != [] {
      FlattenCount(sec[1..], labels);
    }
  }

  /** The items of two sections put together are the first section's items, then the second's. */
  lemma {:induction false} FlattenAppend(a: Section, b: Section, labels: LabelTable)
    ensures Flatten(a + b, labels) == Flatten(a, labels) + Flatten(b, labels)
  {
    if a != [] {
      assert (a + b)[1..] == a[1..] + b;
      assert (a + b)[0] == a[0];
      FlattenAppend(a[1..], b, labels);
    } else {
      assert a + b == b;
    }
  }

  lemma RenderSectionCons(sec: Section, labels: LabelTable)
    requires sec != []
    ensures RenderSection(sec, labels) == RenderEntry(sec[0].0, sec[0].1, labels) + RenderSection(sec[1..], labels)
  {
    var parts := seq(|sec|, i requires 0 <= i < |sec| => RenderEntry(sec[i].0, sec[i].1, labels));
    var tail := sec[1..];
    var rest := seq(|tail|, i requires 0 <= i < |tail| => RenderEntry(tail[i].0, tail[i].1, labels));
    assert parts[1..] == rest;
  }

  lemma FragmentsAppend(a: seq<Item>, b: seq<Item>)
    ensures Fragments(a + b) == Fragments(a) + Fragments(b)
  {
  }

  /** One entry renders as the joined fragments of its items. */
  lemma RenderEntryIsJoinOfItems(key: string, v: Value, labels: LabelTable)
    ensures RenderEntry(key, v, labels) == Join(Fragments(EntryItems(key, v, labels)))
  {
    var items := EntryItems(key, v, labels);
    match v
    case Scalar(s) =>
      assert Join(Fragments(items)) == Fragments(items)[0] + Join([]);
    case Nested(m) =>
      var leaves := seq(|m|, i requires 0 <= i < |m| =>
        Fragment(NestedIndent, Label(labels, key + "." + m[i].0, m[i].0), m[i].1));
      assert Fragments(items) == leaves;
  }

  /** The renderer emits exactly the fragments of the shown items, in order, and nothing else. */
  lemma {:induction false} RenderIsJoinOfItems(sec: Section, labels: LabelTable)
    ensures RenderSection(sec, labels) == Join(Fragments(Flatten(sec, labels)))
  {
    if sec != [] {
      RenderSectionCons(sec, labels);
      RenderEntryIsJoinOfItems(sec[0].0, sec[0].1, labels);
      RenderIsJoinOfItems(sec[1..], labels);
      var first := EntryItems(sec[0].0, sec[0].1, labels);
      var others := Flatten(sec[1..], labels);
      FragmentsAppend(first, others);
      JoinAppend(Fragments(first), Fragments(others));
    }
  }

  /** Rendering two sections put together is rendering each and concatenating the results. */
  lemma RenderAppend(a: Section, b: Section, labels: LabelTable)
    ensures RenderSection(a + b, labels) == RenderSection(a, labels) + RenderSection(b, labels)
  {
    var pa := seq(|a|, i requires 0 <= i < |a| => RenderEntry(a[i].0, a[i].1, labels));
    var pb := seq(|b|, i requires 0 <= i < |b| => RenderEntry(b[i].0, b[i].1, labels));
    var ab := a + b;
    var pab := seq(|ab|, i requires 0 <= i < |ab| => RenderEntry(ab[i].0, ab[i].1, labels));
    assert pab == pa + pb;
    JoinAppend(pa, pb);
  }

  /**
   * Entry `e` shows its items as one contiguous run, starting after the items
   * of the entries before it.
   */
  lemma EntryItemsInPlace(sec: Section, labels: LabelTable, e: nat)
    requires e < |sec|
    ensures var start := LeafCount(sec[..e]);
            var items := EntryItems(sec[e].0, sec[e].1, labels);
            start + |items| <= |Flatten(sec, labels)| &&
            Flatten(sec, labels)[start..start + |items|] == items
  {
    var before, here, after := sec[..e], [sec[e]], sec[e + 1..];
    assert sec == before + here + after;
    FlattenAppend(before + here, after, labels);
    FlattenAppend(before, here, labels);
    FlattenCount(before, labels);
    assert Flatten(here, labels) == EntryItems(sec[e].0, sec[e].1, labels) + Flatten([], labels);
  }

  /**
   * The item shown for a scalar entry: labelled `labels[key]` when that is a
   * non-empty label, otherwise the key itself, and showing the value as is.
   */
  lemma ScalarItemAt(sec: Section, labels: LabelTable, e: nat)
    requires e < |sec| && sec[e].1.Scalar?
    ensures var key := sec[e].0;
            var n := LeafCount(sec[..e]);
            n < |Flatten(sec, labels)| &&
            Flatten(sec, labels)[n].value == sec[e].1.s &&
            Flatten(sec, labels)[n].indent == ScalarIndent &&
            Flatten(sec, labels)[n].labelText ==
              (if key in labels && labels[key] != "" then labels[key] else key)
  {
    EntryItemsInPlace(sec, labels, e);
    var n := LeafCount(sec[..e]);
    assert Flatten(sec, labels)[n] == Flatten(sec, labels)[n..n + 1][0];
  }

  /**
   * The item shown for leaf `j` of a nested entry: labelled
   * `labels[key + "." + subKey]` when that is a non-empty label, otherwise the
   * bare sub-key (never the parent key), and showing the leaf's value as is.
   */
  lemma NestedItemAt(sec: Section, labels: LabelTable, e: nat, j: nat)
    requires e < |sec| && sec[e].1.Nested? && j < |sec[e].1.m|
    ensures var key := sec[e].0;
            var (sub, value) := sec[e].1.m[j];
            var n := LeafCount(sec[..e]) + j;
            n < |Flatten(sec, labels)| &&
            Flatten(sec, labels)[n].value == value &&
            Flatten(sec, labels)[n].indent == NestedIndent &&
            Flatten(sec, labels)[n].labelText ==
              (if key + "." + sub in labels && labels[key + "." + sub] != "" then labels[key + "." + sub] else sub)
  {
    EntryItemsInPlace(sec, labels, e);
    var start := LeafCount(sec[..e]);
    var items := EntryItems(sec[e].0, sec[e].1, labels);
    assert Flatten(sec, labels)[start + j] == Flatten(sec, labels)[start..start + |items|][j];
  }

  /** A scalar entry whose key has a non-empty label shows that label, not the key. */
  lemma ScalarLabelFromTable(sec: Section, labels: LabelTable, e: nat)
    requires e < |sec| && sec[e].1.Scalar?
    requires sec[e].0 in labels && labels[sec[e].0] != ""
    ensures LeafCount(sec[..e]) < |Flatten(sec, labels)|
    ensures Flatten(sec, labels)[LeafCount(sec[..e])].labelText == labels[sec[e].0]
  {
    ScalarItemAt(sec, labels, e);
  }

  /** A nested leaf whose dotted key has a non-empty label shows that label, not the sub-key. */
  lemma NestedLeafLabelFromTable(sec: Section, labels: LabelTable, e: nat, j: nat)
    requires e < |sec| && sec[e].1.Nested? && j < |sec[e].1.m|
    requires sec[e].0 + "." + sec[e].1.m[j].0 in labels && labels[sec[e].0 + "." + sec[e].1.m[j].0] != ""
    ensures LeafCount(sec[..e]) + j < |Flatten(sec, labels)|
    ensures Flatten(sec, labels)[LeafCount(sec[..e]) + j].labelText == labels[sec[e].0 + "." + sec[e].1.m[j].0]
  {
    NestedItemAt(sec, labels, e, j);
  }

  /** The value sits verbatim between its span tags: the renderer escapes nothing. */
  lemma FragmentShowsValueVerbatim(indent: nat, labelText: string, value: string)
    ensures var f := Fragment(indent, labelText, value);
            var shown := "<span class=\"info-value\">" + value + "</span>";
            exists i :: OccursAt(f, shown, i)
  {
    var head := "<div class=\"info-item\">\n" + Spaces(indent + 4) + "<span class=\"info-label\">" + labelText
      + ":</span>\n" + Spaces(indent + 4);
    var shown := "<span class=\"info-value\">" + value + "</span>";
    var tail := "\n" + Spaces(indent) + "</div>";
    var f := Fragment(indent, labelText, value);
    assert f == head + shown + tail;
    assert f[|head|..|head| + |shown|] == shown;
    assert OccursAt(f, shown, |head|);
  }

  /** Every shown item's fragment appears in the section's HTML, after those of the items before it. */
  lemma RenderShowsItem(sec: Section, labels: LabelTable, n: nat)
    requires n < |Flatten(sec, labels)|
    ensures var it := Flatten(sec, labels)[n];
            var fs := Fragments(Flatten(sec, labels));
            OccursAt(RenderSection(sec, labels), Fragment(it.indent, it.labelText, it.value), |Join(fs[..n])|)
  {
    var fs := Fragments(Flatten(sec, labels));
    RenderIsJoinOfItems(sec, labels);
    assert fs == fs[..n] + [fs[n]] + fs[n + 1..];
    JoinAppend(fs[..n] + [fs[n]], fs[n + 1..]);
    JoinAppend(fs[..n], [fs[n]]);
    assert Join([fs[n]]) == fs[n];
    var html := RenderSection(sec, labels);
    assert html == Join(fs[..n]) + fs[n] + Join(fs[n + 1..]);
    assert html[|Join(fs[..n])|..|Join(fs[..n])| + |fs[n]|] == fs[n];
  }
}
