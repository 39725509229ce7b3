/** The detection panel (`DetectedObjects`): one row per detected object, with a colour
    cycling through eight, a selection mark, and the object's label numbered within its
    class when the class occurs more than once. Only the data each row shows is modelled,
    not the markup. */
module DetectedObjects {
  import opened Wrappers
  import opened Text
  import opened Counting

  /** A detected object as the panel receives it. */
  datatype DetectedObject = DetectedObject(id: int, cls: string, labelText: string, confidence: real, bbox: seq<real>)

  /** What one row shows. */
  datatype Row = Row(id: int, displayLabel: string, color: string, selected: bool,
                     instance: nat, showBadge: bool, confidencePercent: int)

  /** The colours of the bounding boxes, in order. */
  const ObjectColors: seq<string> :=
    ["#EF4444", "#3B82F6", "#8B5CF6", "#10B981", "#F59E0B", "#EC4899", "#06B6D4", "#F97316"]

  function Classes(objects: seq<DetectedObject>): (r: seq<string>)
    ensures |r| == |objects|
  {
    seq(|objects|, i requires 0 <= i < |objects| => objects[i].cls)
  }

  /** The `classCounts` fold. */
  function ClassCounts(objects: seq<DetectedObject>): map<string, nat>
  {
    Tally(Classes(objects))
  }

  /** The counter of the object's class after the callback has bumped it for object `i`:
      the objects of that class up to and including `i`. */
  function InstanceNumber(objects: seq<DetectedObject>, i: nat): nat
    requires i < |objects|
  {
    Occurrences(Classes(objects)[..i + 1], objects[i].cls)
  }

  /** `Math.round(confidence * 100)`: halves round up. */
  function Percent(confidence: real): (r: int)
    ensures 0.0 <= confidence <= 1.0 ==> 0 <= r <= 100
  {
    (confidence * 100.0 + 0.5).Floor
  }

  /** The label, with ` #k` appended only when the class occurs more than once. */
  function DisplayLabel(labelText: string, instance: nat, total: nat): string
  {
    if total > 1 then labelText + " #" + NatToString(instance) else labelText
  }

  function RowOf(objects: seq<DetectedObject>, selected: seq<int>, i: nat): Row
    requires i < |objects|
  {
    var obj := objects[i];
    var instance := InstanceNumber(objects, i);
    var total := Get(ClassCounts(objects), obj.cls);
    Row(obj.id, DisplayLabel(obj.labelText, instance, total), ObjectColors[i % |ObjectColors|], obj.id in selected,
        instance, total > 1, Percent(obj.confidence))
  }

  /** The panel: nothing at all for an empty list, otherwise one row per object in order. */
  function Panel(objects: seq<DetectedObject>, selected: seq<int>): Option<seq<Row>>
  {
    if |objects| == 0 then None
    else Some(seq(|objects|, i requires 0 <= i < |objects| => RowOf(objects, selected, i)))
  }

  /** One object of the render: its counter is bumped and its row built. */
  method RenderRow(objects: seq<DetectedObject>, selected: seq<int>, counts: map<string, nat>,
                   counters: map<string, nat>, i: nat) returns (row: Row, next: map<string, nat>)
    requires i < |objects| && counts == ClassCounts(objects)
    requires counters == Tally(Classes(objects)[..i])
    ensures row == RowOf(objects, selected, i)
    ensures next == Tally(Classes(objects)[..i + 1])
  {
    var obj := objects[i];
    var instance := Get(counters, obj.cls) + 1;
    ghost var before := Classes(objects)[..i];
    assert Classes(objects)[..i + 1] == before + [obj.cls];
    TallyCounts(before);
    next := counters[obj.cls := instance];
    var total := Get(counts, obj.cls);
    var shown := if total > 1 then obj.labelText + " #" + NatToString(instance) else obj.labelText;
    row := Row(obj.id, shown, ObjectColors[i % |ObjectColors|], obj.id in selected,
               instance, total > 1, Percent(obj.confidence));
  }

  /** The render, with the instance counters kept in a dictionary updated per object. */
  method Render(objects: seq<DetectedObject>, selected: seq<int>) returns (r: Option<seq<Row>>)
    ensures r == Panel(objects, selected)
  {
    if |objects| == 0 {
      return None;
    }
    var counts := ClassCounts(objects);
    var counters: map<string, nat> := map[];
    var rows: seq<Row> := [];
    var i := 0;
    while i < |objects|
      invariant 0 <= i <= |objects|
      invariant counters == Tally(Classes(objects)[..i])
      invariant |rows| == i && forall k :: 0 <= k < i ==> rows[k] == RowOf(objects, selected, k)
    {
      var row;
      row, counters := RenderRow(objects, selected, counts, counters, i);
      rows := rows + [row];
      i := i + 1;
    }
    assert rows == seq(|objects|, i requires 0 <= i < |objects| => RowOf(objects, selected, i));
    r := Some(rows);
  }

  // ---------------------------------------------------------------------------------------
  // Properties

  /** `classCounts[c]` is the number of objects of class `c`, and only classes that occur
      have an entry. */
  lemma ClassCountsExact(objects: seq<DetectedObject>, c: string)
    ensures Get(ClassCounts(objects), c) == Occurrences(Classes(objects), c)
    ensures c in ClassCounts(objects) <==> exists i :: 0 <= i < |objects| && objects[i].cls == c
  {
    TallyCounts(Classes(objects));
    if c in Classes(objects) {
      var i :| 0 <= i < |objects| && Classes(objects)[i] == c;
    }
    if exists i :: 0 <= i < |objects| && objects[i].cls == c {
      var i :| 0 <= i < |objects| && objects[i].cls == c;
      assert Classes(objects)[i] == c;
    }
  }

  /** The instance numbers of a class run over 1..classCounts[c]: each lies in that range,
      a later object of the class gets a higher number, and every number is used. */
  lemma InstanceNumbering(objects: seq<DetectedObject>, i: nat, j: nat)
    requires i < j < |objects| && objects[i].cls == objects[j].cls
    ensures 1 <= InstanceNumber(objects, i) < InstanceNumber(objects, j)
    ensures InstanceNumber(objects, j) <= Get(ClassCounts(objects), objects[j].cls)
  {
    var s := Classes(objects);
    OccurrencesGrow(s, i, j, objects[j].cls);
    OccurrencesPrefix(s, j + 1, objects[j].cls);
    TallyCounts(s);
  }

  lemma InstanceNumbersUsed(objects: seq<DetectedObject>, c: string, n: nat)
    requires 1 <= n <= Get(ClassCounts(objects), c)
    ensures exists i :: 0 <= i < |objects| && objects[i].cls == c && InstanceNumber(objects, i) == n
  {
    TallyCounts(Classes(objects));
    OccurrenceAt(Classes(objects), c, n);
  }

  /** A class that occurs once shows the bare label; otherwise the label is followed by
      ` #` and the instance number, which reads back as that number. */
  lemma DisplayLabelShape(labelText: string, instance: nat, total: nat)
    ensures var r := DisplayLabel(labelText, instance, total);
      && (total <= 1 ==> r == labelText)
      && (total > 1 ==> |r| > |labelText| + 2 && r[..|labelText|] == labelText && r[|labelText|..|labelText| + 2] == " #"
                        && JsParseInt(r[|labelText| + 2..]) == Some(instance))
  {
    if total > 1 {
      var r := DisplayLabel(labelText, instance, total);
      assert r[|labelText| + 2..] == NatToString(instance);
      JsParseIntOfNatToString(instance);
    }
  }

  /** The position of a colour in the palette. */
  function PaletteIndex(color: string): int
  {
    if color == "#EF4444" then 0 else if color == "#3B82F6" then 1 else if color == "#8B5CF6" then 2
    else if color == "#10B981" then 3 else if color == "#F59E0B" then 4 else if color == "#EC4899" then 5
    else if color == "#06B6D4" then 6 else if color == "#F97316" then 7 else -1
  }

  /** The palette holds eight different colours. */
  lemma PaletteIndexOf(k: nat)
    requires k < 8
    ensures PaletteIndex(ObjectColors[k]) == k
  {
    if k == 0 {
    } else if k == 1 {
    } else if k == 2 {
    } else if k == 3 {
    } else if k == 4 {
    } else if k == 5 {
    } else if k == 6 {
    } else {
    }
  }

  /** Each object's colour is the `idx mod 8`-th of the palette, so any eight consecutive
      objects get eight different colours. */
  lemma ColorsCycle(objects: seq<DetectedObject>, selected: seq<int>, i: nat, j: nat)
    requires i < j < |objects|
    ensures RowOf(objects, selected, i).color == ObjectColors[i % 8]
    ensures j - i < 8 ==> RowOf(objects, selected, i).color != RowOf(objects, selected, j).color
  {
    if j - i < 8 {
      PaletteIndexOf(i % 8);
      PaletteIndexOf(j % 8);
    }
  }

  /** A row is marked selected exactly when its object's id is in the selection. */
  lemma SelectedRows(objects: seq<DetectedObject>, selected: seq<int>, i: nat)
    requires i < |objects|
    ensures Panel(objects, selected).Some?
    ensures Panel(objects, selected).value[i].selected <==> objects[i].id in selected
  {
  }
}
