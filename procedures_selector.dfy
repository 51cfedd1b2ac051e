/** The procedure picker of the registration wizard: which catalogue items are selected,
    their prices, the per-group badge count, and the automatic "Faja talla:" and
    "Pierna:" lines it keeps at the head of the procedure notes. */
module ProceduresSelector {
  import opened Wrappers
  import opened Strings

  /** One selected procedure; the price is the text shown in its input. */
  datatype ProcedureItem = ProcedureItem(itemName: string, price: string)

  /** A catalogue entry of the procedures data file. */
  datatype Procedure = Procedure(id: string, name: string)

  const FajaMarker: string := "Faja talla:"
  const PiernaMarker: string := "Pierna:"
  const FajaId: string := "faja_postoperatoria"
  const PiernaId: string := "pierna"

  /** `isSelected(label)`: some item carries the label. */
  predicate IsSelected(items: seq<ProcedureItem>, name: string) {
    exists i :: 0 <= i < |items| && items[i].itemName == name
  }

  /** `getPrice(label)`: the price of the first item with the label, or "". */
  function GetPrice(items: seq<ProcedureItem>, name: string): (r: string)
    ensures !IsSelected(items, name) ==> r == ""
    ensures IsSelected(items, name) ==>
      exists i :: 0 <= i < |items| && items[i].itemName == name && r == items[i].price
                  && forall j :: 0 <= j < i ==> items[j].itemName != name
  {
    if items == [] then ""
    else if items[0].itemName == name then items[0].price
    else
      var r := GetPrice(items[1..], name);
      assert forall j :: 1 <= j < |items| ==> items[j] == items[1..][j - 1];
      r
  }

  /** `prev.filter(item => item.item_name !== label)`. */
  function RemoveLabel(items: seq<ProcedureItem>, name: string): (r: seq<ProcedureItem>)
    ensures !IsSelected(r, name)
    ensures |r| <= |items|
    ensures forall x :: x in r ==> x in items
  {
    if items == [] then []
    else (if items[0].itemName == name then [] else [items[0]]) + RemoveLabel(items[1..], name)
  }

  /** Filtering keeps every item without the label, in order: it distributes over concatenation. */
  lemma {:induction false} RemoveLabelAppend(a: seq<ProcedureItem>, b: seq<ProcedureItem>, name: string)
    ensures RemoveLabel(a + b, name) == RemoveLabel(a, name) + RemoveLabel(b, name)
  {
    if a == [] {
      assert a + b == b;
    } else {
      assert (a + b)[1..] == a[1..] + b;
      RemoveLabelAppend(a[1..], b, name);
    }
  }

  /** Filtering a label that is not there changes nothing. */
  lemma {:induction false} RemoveLabelAbsent(items: seq<ProcedureItem>, name: string)
    requires !IsSelected(items, name)
    ensures RemoveLabel(items, name) == items
  {
    if items != [] {
      assert forall j :: 0 <= j < |items[1..]| ==> items[1..][j] == items[j + 1];
      RemoveLabelAbsent(items[1..], name);
    }
  }

  /** The number of characters before the first line terminator: what a regular-expression `.*` consumes. */
  function LineLength(s: string): (n: nat)
    ensures n <= |s|
    ensures forall i :: 0 <= i < n ==> !IsLineTerminator(s[i])
    ensures n == |s| || IsLineTerminator(s[n])
  {
    if s == [] || IsLineTerminator(s[0]) then 0 else 1 + LineLength(s[1..])
  }

  /** `notes.replace(/<marker>.*(\n\n)?/, "")`: the first occurrence of the marker, the rest of its
      line and one directly following blank-line separator are removed; all else is kept. */
  function RemoveLine(notes: string, marker: string): (r: string)
    ensures !Contains(notes, marker) ==> r == notes
    ensures Contains(notes, marker) ==> |r| < |notes| || marker == ""
  {
    match IndexOf(notes, marker)
    case None => notes
    case Some(k) =>
      var rest := notes[k + |marker|..];
      var after := rest[LineLength(rest)..];
      notes[..k] + (if StartsWith(after, "\n\n") then after[2..] else after)
  }

  /** A single line: no character a regular-expression `.` refuses. */
  predicate SingleLine(s: string) {
    forall i :: 0 <= i < |s| ==> !IsLineTerminator(s[i])
  }

  lemma LineLengthSingle(w: string, tail: string)
    requires SingleLine(w)
    requires tail == [] || IsLineTerminator(tail[0])
    ensures LineLength(w + tail) == |w|
  {
    if w != [] {
      assert (w + tail)[1..] == w[1..] + tail;
      LineLengthSingle(w[1..], tail);
    } else {
      assert w + tail == tail;
    }
  }

  /** A note line at the very start of the notes is removed with its separator, leaving the rest. */
  lemma RemoveLeadingLine(marker: string, w: string, clean: string)
    requires SingleLine(w)
    ensures RemoveLine(marker + w, marker) == ""
    ensures RemoveLine(marker + w + "\n\n" + clean, marker) == clean
  {
    var s1 := marker + w;
    assert StartsWith(s1, marker);
    assert IndexOf(s1, marker) == Some(0);
    assert s1[|marker|..] == w;
    LineLengthSingle(w, []);
    assert w + [] == w;
    var s2 := marker + w + "\n\n" + clean;
    assert s2[..|marker|] == marker;
    assert StartsWith(s2, marker);
    assert IndexOf(s2, marker) == Some(0);
    var rest := s2[|marker|..];
    assert rest == w + ("\n\n" + clean);
    LineLengthSingle(w, "\n\n" + clean);
    assert rest[|w|..] == "\n\n" + clean;
  }

  /** The result of `toggleItem(label)`: new items and new notes. */
  datatype Selection = Selection(items: seq<ProcedureItem>, notes: string)

  /** `toggleItem(label)`: deselect (dropping the automatic note line for a "Faja" or "Pierna"
      label) or append the label with an empty price. */
  function Toggle(s: Selection, name: string): (r: Selection)
    ensures IsSelected(s.items, name) ==> r.items == RemoveLabel(s.items, name)
    ensures !IsSelected(s.items, name) ==> r.items == s.items + [ProcedureItem(name, "")] && r.notes == s.notes
    ensures IsSelected(r.items, name) <==> !IsSelected(s.items, name)
  {
    if IsSelected(s.items, name) then
      var n1 := if Contains(name, "Faja") then RemoveLine(s.notes, FajaMarker) else s.notes;
      var n2 := if Contains(name, "Pierna") then RemoveLine(n1, PiernaMarker) else n1;
      Selection(RemoveLabel(s.items, name), n2)
    else
      var r := s.items + [ProcedureItem(name, "")];
      assert r[|s.items|].itemName == name;
      Selection(r, s.notes)
  }

  /** Deselecting a label without "Faja" or "Pierna" leaves the notes alone. */
  lemma ToggleOtherKeepsNotes(s: Selection, name: string)
    requires !Contains(name, "Faja") && !Contains(name, "Pierna")
    ensures Toggle(s, name).notes == s.notes
  {
  }

  /** Toggling a label that is not selected twice restores the item list. */
  lemma ToggleTwice(s: Selection, name: string)
    requires !IsSelected(s.items, name)
    ensures Toggle(Toggle(s, name), name).items == s.items
  {
    var t := Toggle(s, name);
    RemoveLabelAppend(s.items, [ProcedureItem(name, "")], name);
    RemoveLabelAbsent(s.items, name);
    assert RemoveLabel([ProcedureItem(name, "")], name) == [];
  }

  /** `handleFajaChange(value)`: the size line replaces any previous one at the head of the notes. */
  function FajaChange(notes: string, value: string): (r: string)
    ensures StartsWith(r, FajaMarker + " " + value)
  {
    var clean := RemoveLine(notes, FajaMarker);
    if clean == "" then FajaMarker + " " + value else FajaMarker + " " + value + "\n\n" + clean
  }

  /** Typing the same single-line size twice gives the same notes as typing it once. */
  lemma FajaChangeIdempotent(notes: string, value: string)
    requires SingleLine(value)
    ensures FajaChange(FajaChange(notes, value), value) == FajaChange(notes, value)
  {
    var clean := RemoveLine(notes, FajaMarker);
    var w := " " + value;
    assert SingleLine(w) by {
      assert forall i :: 1 <= i < |w| ==> w[i] == value[i - 1];
    }
    assert FajaMarker + " " + value == FajaMarker + w;
    assert FajaMarker + " " + value + "\n\n" + clean == FajaMarker + w + "\n\n" + clean;
    RemoveLeadingLine(FajaMarker, w, clean);
  }

  /** The note for the two leg checkboxes; "" when neither is ticked. */
  function PiernaNote(interna: bool, externa: bool): (r: string)
    ensures r == "" <==> !interna && !externa
  {
    if interna && externa then "Pierna: interna y externa"
    else if interna then "Pierna: interna"
    else if externa then "Pierna: externa"
    else ""
  }

  /** `handlePiernaChange(interna, externa)`. */
  function PiernaChange(notes: string, interna: bool, externa: bool): (r: string)
    ensures !interna && !externa ==> r == RemoveLine(notes, PiernaMarker)
    ensures (interna || externa) ==> StartsWith(r, PiernaNote(interna, externa))
  {
    var note := PiernaNote(interna, externa);
    var clean := RemoveLine(notes, PiernaMarker);
    if note == "" then clean
    else if clean == "" then note
    else note + "\n\n" + clean
  }

  /** What follows the "Pierna:" marker in a leg note. */
  function PiernaSide(interna: bool, externa: bool): string {
    if interna && externa then " interna y externa"
    else if interna then " interna"
    else " externa"
  }

  /** A ticked leg note is the marker followed by a single line. */
  lemma PiernaNoteShape(interna: bool, externa: bool)
    requires interna || externa
    ensures SingleLine(PiernaSide(interna, externa))
    ensures PiernaNote(interna, externa) == PiernaMarker + PiernaSide(interna, externa)
  {
    if interna && externa {
      SideSingleLine(" interna y externa");
      assert "Pierna: interna y externa" == PiernaMarker + " interna y externa";
    } else if interna {
      SideSingleLine(" interna");
      assert "Pierna: interna" == PiernaMarker + " interna";
    } else {
      SideSingleLine(" externa");
      assert "Pierna: externa" == PiernaMarker + " externa";
    }
  }

  /** The three side texts are made of spaces and lower-case letters. */
  lemma SideSingleLine(w: string)
    requires w == " interna y externa" || w == " interna" || w == " externa"
    ensures SingleLine(w)
  {
    assert forall i :: 0 <= i < |w| ==> w[i] == ' ' || 'a' <= w[i] <= 'z';
  }

  /** Re-applying the same ticked checkbox state changes nothing. */
  lemma PiernaChangeIdempotent(notes: string, interna: bool, externa: bool)
    requires interna || externa
    ensures PiernaChange(PiernaChange(notes, interna, externa), interna, externa)
            == PiernaChange(notes, interna, externa)
  {
    var clean := RemoveLine(notes, PiernaMarker);
    PiernaNoteShape(interna, externa);
    RemoveLeadingLine(PiernaMarker, PiernaSide(interna, externa), clean);
  }

  /** How `Contains` sees the leg notes, by their checkbox state. */
  predicate PiernaInterna(notes: string) { Contains(notes, "Pierna: interna") }
  predicate PiernaExterna(notes: string) { Contains(notes, "Pierna: externa") }
  predicate PiernaAmbas(notes: string) { Contains(notes, "interna y externa") }

  /** `disablePrice`: the faja price waits for a size and the leg price for a side. */
  predicate DisablePrice(procedureId: string, notes: string) {
    (procedureId == FajaId && !Contains(notes, FajaMarker))
    || (procedureId == PiernaId && !(PiernaInterna(notes) || PiernaExterna(notes) || PiernaAmbas(notes)))
  }

  /** Entering a size enables the faja price. */
  lemma FajaChangeEnablesPrice(notes: string, value: string)
    ensures !DisablePrice(FajaId, FajaChange(notes, value))
  {
    var r := FajaChange(notes, value);
    assert StartsWith(r, FajaMarker) by {
      assert r[..|FajaMarker|] == (FajaMarker + " " + value)[..|FajaMarker|];
    }
    ContainsPrefix(r, FajaMarker);
  }

  /** Ticking either side enables the leg price. */
  lemma PiernaChangeEnablesPrice(notes: string, interna: bool, externa: bool)
    requires interna || externa
    ensures !DisablePrice(PiernaId, PiernaChange(notes, interna, externa))
  {
    var r := PiernaChange(notes, interna, externa);
    var n := PiernaNote(interna, externa);
    if interna {
      assert StartsWith(r, "Pierna: interna") by {
        assert r[..|n|] == n;
        assert n[..15] == "Pierna: interna";
      }
      ContainsPrefix(r, "Pierna: interna");
    } else {
      assert StartsWith(r, "Pierna: externa") by {
        assert r[..|n|] == n;
      }
      ContainsPrefix(r, "Pierna: externa");
    }
  }

  /** Prices of other catalogue items are never disabled. */
  lemma OtherPriceEnabled(procedureId: string, notes: string)
    requires procedureId != FajaId && procedureId != PiernaId
    ensures !DisablePrice(procedureId, notes)
  {
  }

  /** `PROCEDURES.find(p => p.id === id)`. */
  function FindProcedure(procedures: seq<Procedure>, id: string): (r: Option<Procedure>)
    ensures r.Some? ==> r.value in procedures && r.value.id == id
    ensures r.None? ==> forall p :: p in procedures ==> p.id != id
  {
    if procedures == [] then None
    else if procedures[0].id == id then Some(procedures[0])
    else FindProcedure(procedures[1..], id)
  }

  /** What one id adds to the group badge: 1 when its catalogue label is selected. */
  function Contribution(procedures: seq<Procedure>, items: seq<ProcedureItem>, id: string): (c: nat)
    ensures c <= 1
  {
    match FindProcedure(procedures, id)
    case None => 0
    case Some(p) => if IsSelected(items, p.name) then 1 else 0
  }

  /** `getGroupCount(ids)`: the `reduce` over the group's ids. */
  function GroupCount(procedures: seq<Procedure>, items: seq<ProcedureItem>, ids: seq<string>): nat
  {
    if ids == [] then 0
    else GroupCount(procedures, items, ids[..|ids| - 1]) + Contribution(procedures, items, ids[|ids| - 1])
  }

  /** The badge never exceeds the number of ids in the group. */
  lemma {:induction false} GroupCountBound(procedures: seq<Procedure>, items: seq<ProcedureItem>, ids: seq<string>)
    ensures GroupCount(procedures, items, ids) <= |ids|
  {
    if ids != [] {
      GroupCountBound(procedures, items, ids[..|ids| - 1]);
    }
  }

  /** An id missing from the catalogue adds nothing, wherever it stands in the group. */
  lemma {:induction false} GroupCountMissing(procedures: seq<Procedure>, items: seq<ProcedureItem>,
                                             a: seq<string>, id: string, b: seq<string>)
    requires FindProcedure(procedures, id).None?
    ensures GroupCount(procedures, items, a + [id] + b) == GroupCount(procedures, items, a + b)
    decreases |b|
  {
    if b == [] {
      assert a + [id] + b == a + [id];
      assert (a + [id])[..|a|] == a;
      assert a + b == a;
    } else {
      var b' := b[..|b| - 1];
      assert (a + [id] + b)[..|a + [id] + b| - 1] == a + [id] + b';
      assert (a + b)[..|a + b| - 1] == a + b';
      GroupCountMissing(procedures, items, a, id, b');
    }
  }

  /** The badge counts every id when all of them name selected catalogue entries. */
  lemma {:induction false} GroupCountAll(procedures: seq<Procedure>, items: seq<ProcedureItem>, ids: seq<string>)
    requires forall i :: 0 <= i < |ids| ==> Contribution(procedures, items, ids[i]) == 1
    ensures GroupCount(procedures, items, ids) == |ids|
  {
    if ids != [] {
      GroupCountAll(procedures, items, ids[..|ids| - 1]);
    }
  }


  /** The two leg checkboxes as they are displayed from the notes. */
  predicate InternaChecked(notes: string) { PiernaInterna(notes) || PiernaAmbas(notes) }
  predicate ExternaChecked(notes: string) { PiernaExterna(notes) || PiernaAmbas(notes) }

  /** Clicking "Interna", as written: the other side is read with `piernaExterna` alone. */
  function InternaClickAsWritten(notes: string, checked: bool): string {
    PiernaChange(notes, checked, PiernaExterna(notes))
  }

  /** Clicking "Interna", corrected: the other side is the displayed state of "Externa". */
  function InternaClick(notes: string, checked: bool): string {
    PiernaChange(notes, checked, ExternaChecked(notes))
  }

  /** Clicking "Externa": the other side is read with `piernaInterna`, which the combined note contains. */
  function ExternaClick(notes: string, checked: bool): string {
    PiernaChange(notes, PiernaInterna(notes), checked)
  }

  lemma DetectInterna()
    ensures PiernaInterna("Pierna: interna") && !PiernaExterna("Pierna: interna") && !PiernaAmbas("Pierna: interna")
  {
    var n := "Pierna: interna";
    ContainsPrefix(n, n);
    assert n[9] != "Pierna: externa"[9];
    NotContains(n, "Pierna: externa");
    NotContainsShort(n, "interna y externa");
  }

  lemma DetectExterna()
    ensures !PiernaInterna("Pierna: externa") && PiernaExterna("Pierna: externa") && !PiernaAmbas("Pierna: externa")
  {
    var n := "Pierna: externa";
    ContainsPrefix(n, n);
    assert n[9] != "Pierna: interna"[9];
    NotContains(n, "Pierna: interna");
    NotContainsShort(n, "interna y externa");
  }

  lemma DetectAmbas()
    ensures var n := "Pierna: interna y externa";
      PiernaInterna(n) && !PiernaExterna(n) && PiernaAmbas(n)
  {
    DetectAmbasInterna();
    DetectAmbasExterna();
    DetectAmbasAmbas();
  }

  lemma DetectAmbasInterna()
    ensures PiernaInterna("Pierna: interna y externa")
  {
    var n := "Pierna: interna y externa";
    assert n[..15] == "Pierna: interna";
    ContainsPrefix(n, "Pierna: interna");
  }

  lemma DetectAmbasExterna()
    ensures !PiernaExterna("Pierna: interna y externa")
  {
    var n := "Pierna: interna y externa";
    assert n[9] != "Pierna: externa"[9];
    assert n[1..] == "ierna: interna y externa";
    NoCapitalP(n[1..]);
    NotContainsChar(n[1..], "Pierna: externa", 'P');
    NotContainsTail(n, "Pierna: externa");
  }

  lemma NoCapitalP(t: string)
    requires t == "ierna: interna y externa"
    ensures 'P' !in t
  {
  }

  lemma DetectAmbasAmbas()
    ensures PiernaAmbas("Pierna: interna y externa")
  {
    var n := "Pierna: interna y externa";
    assert n[8..] == "interna y externa";
    ContainsAt(n, "interna y externa", 8);
  }

  /** How the three detection tests read each leg note. */
  lemma PiernaNoteDetection(interna: bool, externa: bool)
    ensures PiernaInterna(PiernaNote(interna, externa)) == interna
    ensures PiernaExterna(PiernaNote(interna, externa)) == (externa && !interna)
    ensures PiernaAmbas(PiernaNote(interna, externa)) == (interna && externa)
  {
    if interna && externa {
      DetectAmbas();
    } else if interna {
      DetectInterna();
    } else if externa {
      DetectExterna();
    } else {
      NotContains("", "Pierna: interna");
      NotContains("", "Pierna: externa");
      NotContains("", "interna y externa");
    }
  }

  /** On notes holding only a leg line, the line is replaced by the note of the new state. */
  lemma PiernaChangeReplacesLine(i: bool, e: bool, i': bool, e': bool)
    ensures PiernaChange(PiernaNote(i, e), i', e') == PiernaNote(i', e')
  {
    if i || e {
      PiernaNoteShape(i, e);
      RemoveLeadingLine(PiernaMarker, PiernaSide(i, e), "");
    } else {
      assert !Contains("", PiernaMarker);
    }
  }

  /** As written: with both sides ticked, unticking "Interna" also unticks "Externa": the leg
      note is removed and the leg's price input is disabled, while the item stays selected. */
  lemma InternaClickDropsExterna()
    ensures ExternaChecked(PiernaNote(true, true))
    ensures InternaClickAsWritten(PiernaNote(true, true), false) == ""
    ensures !ExternaChecked(InternaClickAsWritten(PiernaNote(true, true), false))
    ensures !InternaChecked(InternaClickAsWritten(PiernaNote(true, true), false))
    ensures DisablePrice(PiernaId, InternaClickAsWritten(PiernaNote(true, true), false))
  {
    PiernaNoteDetection(true, true);
    PiernaChangeReplacesLine(true, true, false, false);
    EmptyNotesUnticked();
  }

  /** Empty notes show neither leg box ticked, and keep the leg price disabled. */
  lemma EmptyNotesUnticked()
    ensures !InternaChecked("") && !ExternaChecked("") && DisablePrice(PiernaId, "")
  {
    NotContainsShort("", "Pierna: interna");
    NotContainsShort("", "Pierna: externa");
    NotContainsShort("", "interna y externa");
  }

  /** Corrected: clicking "Interna" sets that side and keeps the other one. */
  lemma InternaClickKeepsExterna(interna: bool, externa: bool, checked: bool)
    ensures InternaClick(PiernaNote(interna, externa), checked) == PiernaNote(checked, externa)
  {
    PiernaNoteDetection(interna, externa);
    PiernaChangeReplacesLine(interna, externa, checked, externa);
  }

  /** Clicking "Externa" sets that side and keeps the other one. */
  lemma ExternaClickKeepsInterna(interna: bool, externa: bool, checked: bool)
    ensures ExternaClick(PiernaNote(interna, externa), checked) == PiernaNote(interna, checked)
  {
    PiernaNoteDetection(interna, externa);
    PiernaChangeReplacesLine(interna, externa, interna, checked);
  }
}
