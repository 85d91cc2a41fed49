/**
 * `boundedMcpText`: a tool result too long for the model is cut down to the
 * largest prefix of its largest top-level list that fits, as valid JSON.
 *
 * `parsed` is the outcome of `JSON.parse(text)`; parsing itself is not modelled.
 */
module BoundedText {
  import opened Options
  import opened Json
  import opened Decimal

  const CURSOR_KEYS: seq<string> := ["nextPageToken", "nextCursor", "next_cursor", "nextPage", "cursor"]

  function CursorAmong(fields: seq<Field>, keys: seq<string>): Option<string> {
    if keys == [] then None
    else
      match Lookup(fields, keys[0])
      case Some(Str(s)) => if IsBlank(s) then CursorAmong(fields, keys[1..]) else Some(s)
      case _ => CursorAmong(fields, keys[1..])
  }

  function CursorFrom(structured: Json): Option<string> {
    if structured.Obj? then CursorAmong(structured.fields, CURSOR_KEYS) else None
  }

  /** A text entry that is not blank. */
  predicate Names(fields: seq<Field>, key: string, cursor: string) {
    Lookup(fields, key) == Some(Str(cursor)) && exists i | 0 <= i < |cursor| :: !IsSpace(cursor[i])
  }

  /** The text is under the first of these keys that has one, and there is none when no key has. */
  ghost predicate IsFirstNamed(fields: seq<Field>, keys: seq<string>, k: nat, cursor: Option<string>) {
    && k <= |keys| && (forall i, c | 0 <= i < k :: !Names(fields, keys[i], c))
    && if k < |keys| then cursor.Some? && Names(fields, keys[k], cursor.value) else cursor.None?
  }

  lemma {:induction false} CursorIsFirst(fields: seq<Field>, keys: seq<string>) returns (k: nat)
    ensures IsFirstNamed(fields, keys, k, CursorAmong(fields, keys))
  {
    k := 0;
    if keys != [] && forall c :: !Names(fields, keys[0], c) {
      var found := Lookup(fields, keys[0]);
      if found.Some? && found.value.Str? { assert !Names(fields, keys[0], found.value.s); }
      var rest := CursorIsFirst(fields, keys[1..]);
      k := rest + 1;
      forall i, c | 0 <= i < k ensures !Names(fields, keys[i], c) {
        if i > 0 { assert keys[i] == keys[1..][i - 1]; }
      }
    }
  }

  /** The cursor of a structured result: under `nextPageToken` before any other key that may hold one. */
  lemma CursorOfResult(structured: Json) returns (k: nat)
    ensures if structured.Obj?
            then IsFirstNamed(structured.fields, ["nextPageToken", "nextCursor", "next_cursor", "nextPage", "cursor"], k, CursorFrom(structured))
            else CursorFrom(structured).None?
  {
    k := 0;
    if structured.Obj? { k := CursorIsFirst(structured.fields, CURSOR_KEYS); }
  }

  /** The object whose lists may be shortened: a parsed object, or a parsed array under `items`. */
  function Container(parsed: Option<Json>): Option<seq<Field>> {
    match parsed
    case Some(Arr(items)) => Some([Field("items", Arr(items))])
    case Some(Obj(fields)) => Some(fields)
    case _ => None
  }

  /** The first of the array-valued entries whose text is longest. */
  function LargestList(fields: seq<Field>): (r: Option<Field>)
    ensures r.Some? ==> r.value in fields && r.value.value.Arr?
    ensures forall f | f in fields && f.value.Arr? ::
              r.Some? && |Print(f.value)| <= |Print(r.value.value)|
  {
    if fields == [] then None
    else
      assert fields == [fields[0]] + fields[1..];
      var rest := LargestList(fields[1..]);
      if !fields[0].value.Arr? then rest
      else if rest.Some? && |Print(rest.value.value)| > |Print(fields[0].value)| then rest
      else Some(fields[0])
  }

  /** The list at `k` is longest, and the first of the longest. */
  ghost predicate IsLongest(fields: seq<Field>, k: nat) {
    && k < |fields| && fields[k].value.Arr?
    && (forall i | 0 <= i < k && fields[i].value.Arr? :: |Print(fields[i].value)| < |Print(fields[k].value)|)
    && (forall i | k < i < |fields| && fields[i].value.Arr? :: |Print(fields[i].value)| <= |Print(fields[k].value)|)
  }

  lemma LongestWithHead(fields: seq<Field>, m: nat)
    requires fields != [] && IsLongest(fields[1..], m)
    ensures if !fields[0].value.Arr? || |Print(fields[m + 1].value)| > |Print(fields[0].value)| then IsLongest(fields, m + 1)
            else IsLongest(fields, 0)
  {
    assert forall i | 0 < i < |fields| :: fields[i] == fields[1..][i - 1];
  }

  /** Of equally long lists the first is taken. */
  lemma {:induction false} LargestIsFirst(fields: seq<Field>) returns (k: nat)
    requires exists i | 0 <= i < |fields| :: fields[i].value.Arr?
    ensures IsLongest(fields, k) && LargestList(fields) == Some(fields[k])
  {
    k := 0;
    var rest := fields[1..];
    if forall i | 0 <= i < |rest| :: !rest[i].value.Arr? {
      assert forall f | f in rest :: !f.value.Arr?;
      assert forall i | 0 < i < |fields| :: fields[i] == rest[i - 1];
    } else {
      var m := LargestIsFirst(rest);
      LongestWithHead(fields, m);
      if !fields[0].value.Arr? || |Print(rest[m].value)| > |Print(fields[0].value)| { k := m + 1; }
    }
  }

  /** An object literal's `key: value` after a spread: replaces in place, or appends. */
  function SetKey(fields: seq<Field>, key: string, value: Json): seq<Field> {
    if fields == [] then [Field(key, value)]
    else if fields[0].key == key then [Field(key, value)] + fields[1..]
    else [fields[0]] + SetKey(fields[1..], key, value)
  }

  function NoticeFields(field: Json, returned: Json, total: Json, original: Json, note: Json): seq<Field> {
    [
      Field("field", field),
      Field("returnedItems", returned),
      Field("totalItems", total),
      Field("originalCharacters", original),
      Field("note", note)
    ]
  }

  datatype Cut = Cut(container: seq<Field>, field: string, items: seq<Json>, cursor: Option<string>, characters: nat)
  {
    predicate AddsCursor() {
      cursor.Some? && cursor.value != "" && forall i | 0 <= i < |container| :: container[i].value != Str(cursor.value)
    }

    function Note(kept: nat): string {
      "Only the first " + Digits(kept) + NoteTail()
    }

    function NoteTail(): string {
      " of " + Digits(|items|) + " " + field
      + " fit in this result. Request a smaller page or narrower query for the rest; any page cursor above is exact."
    }

    function Notice(kept: nat): seq<Field> {
      NoticeFields(Str(field), Num(Digits(kept)), Num(Digits(|items|)), Num(Digits(characters)), Str(Note(kept)))
    }

    function Truncation(kept: nat): Json {
      Obj(Notice(kept))
    }

    /** `items.slice(0, kept)`. */
    function Kept(kept: nat): seq<Json> {
      if kept < |items| then items[..kept] else items
    }

    function Rendered(kept: nat): seq<Field> {
      var shortened := SetKey(container, field, Arr(Kept(kept)));
      var withCursor := if AddsCursor() then SetKey(shortened, "nextPageToken", Str(cursor.value)) else shortened;
      SetKey(withCursor, "berryTruncation", Truncation(kept))
    }

    /** The closure that renders a result with `kept` items. */
    function Renderer(): nat -> string {
      (kept: nat) => Print(Obj(Rendered(kept)))
    }
  }

  // ----- rendered length grows with the number of kept items -----

  lemma {:induction false} TailLength(s: string, x: string, y: string)
    ensures |WriteTail(s, x)| + |y| == |WriteTail(s, y)| + |x|
  {
    if s != [] {
      TailLength(s[1..], x, y);
    }
  }

  lemma {:induction false} WriteLength(j: Json, x: string, y: string)
    ensures |Write(j, x)| + |y| == |Write(j, y)| + |x|
    decreases j, 1
  {
    match j
    case Str(s) => TailLength(s, x, y);
    case Arr(items) => ItemsLength(items, [']'] + x, [']'] + y);
    case Obj(fields) => FieldsLength(fields, ['}'] + x, ['}'] + y);
    case _ =>
  }

  lemma {:induction false} ItemsLength(items: seq<Json>, x: string, y: string)
    ensures |WriteItems(items, x)| + |y| == |WriteItems(items, y)| + |x|
    decreases items, 0
  {
    if |items| == 1 {
      WriteLength(items[0], x, y);
    } else if |items| > 1 {
      ItemsLength(items[1..], x, y);
      WriteLength(items[0], [','] + WriteItems(items[1..], x), [','] + WriteItems(items[1..], y));
    }
  }

  lemma {:induction false} FieldsLength(fields: seq<Field>, x: string, y: string)
    ensures |WriteFields(fields, x)| + |y| == |WriteFields(fields, y)| + |x|
    decreases fields, 0
  {
    if |fields| == 1 {
      FieldLength(fields[0], x, y);
    } else if |fields| > 1 {
      FieldsLength(fields[1..], x, y);
      FieldLength(fields[0], [','] + WriteFields(fields[1..], x), [','] + WriteFields(fields[1..], y));
    }
  }

  lemma {:induction false} FieldLength(field: Field, x: string, y: string)
    ensures |WriteField(field, x)| + |y| == |WriteField(field, y)| + |x|
    decreases field, 0
  {
    WriteLength(field.value, x, y);
    TailLength(field.key, [':'] + Write(field.value, x), [':'] + Write(field.value, y));
  }

  ghost predicate NoLonger(a: seq<Field>, b: seq<Field>) {
    |a| == |b| && forall i | 0 <= i < |a| :: a[i].key == b[i].key && |Print(a[i].value)| <= |Print(b[i].value)|
  }

  lemma FieldNoLonger(a: Field, b: Field, x: string, y: string)
    requires a.key == b.key && |Print(a.value)| <= |Print(b.value)| && |x| <= |y|
    ensures |WriteField(a, x)| <= |WriteField(b, y)|
  {
    WriteLength(a.value, x, "");
    WriteLength(b.value, y, "");
    TailLength(a.key, [':'] + Write(a.value, x), [':'] + Write(b.value, y));
  }

  lemma {:induction false} FieldsNoLonger(a: seq<Field>, b: seq<Field>, x: string, y: string)
    requires NoLonger(a, b) && |x| <= |y|
    ensures |WriteFields(a, x)| <= |WriteFields(b, y)|
  {
    if |a| == 1 {
      FieldNoLonger(a[0], b[0], x, y);
    } else if |a| > 1 {
      FieldsNoLonger(a[1..], b[1..], x, y);
      FieldNoLonger(a[0], b[0], [','] + WriteFields(a[1..], x), [','] + WriteFields(b[1..], y));
    }
  }

  lemma {:induction false} SetKeyNoLonger(a: seq<Field>, b: seq<Field>, key: string, v: Json, w: Json)
    requires NoLonger(a, b) && |Print(v)| <= |Print(w)|
    ensures NoLonger(SetKey(a, key, v), SetKey(b, key, w))
  {
    if a != [] && a[0].key != key {
      SetKeyNoLonger(a[1..], b[1..], key, v, w);
    }
  }

  lemma {:induction false} PrefixNoLonger(items: seq<Json>, k: nat, x: string, y: string)
    requires k < |items| && |x| <= |y|
    ensures |WriteItems(items[..k], x)| <= |WriteItems(items[..k + 1], y)|
  {
    var a, b := items[..k], items[..k + 1];
    if k == 0 {
      WriteLength(items[0], y, "");
    } else {
      assert a[1..] == items[1..][..k - 1] && b[1..] == items[1..][..k];
      PrefixNoLonger(items[1..], k - 1, x, y);
      var u := if k == 1 then x else [','] + WriteItems(a[1..], x);
      var v := [','] + WriteItems(b[1..], y);
      ItemsLength(b[1..], y, "");
      WriteLength(items[0], u, v);
    }
  }

  /** The number of characters `s` takes inside quotes. */
  function EscapedLength(s: string): nat {
    if s == [] then 0 else |Escape(s[0])| + EscapedLength(s[1..])
  }

  lemma {:induction false} EscapedTail(s: string, x: string)
    ensures |WriteTail(s, x)| == EscapedLength(s) + 1 + |x|
  {
    if s != [] {
      EscapedTail(s[1..], x);
    }
  }

  lemma {:induction false} EscapedConcat(s: string, t: string)
    ensures EscapedLength(s + t) == EscapedLength(s) + EscapedLength(t)
  {
    if s == [] {
      assert s + t == t;
    } else {
      assert (s + t)[1..] == s[1..] + t;
      EscapedConcat(s[1..], t);
    }
  }

  lemma {:induction false} EscapedDigits(s: string)
    requires forall i | 0 <= i < |s| :: IsDigit(s[i])
    ensures EscapedLength(s) == |s|
  {
    if s != [] {
      assert Escape(s[0]) == [s[0]];
      EscapedDigits(s[1..]);
    }
  }

  lemma NoteLength(cut: Cut, kept: nat)
    ensures |Print(Str(cut.Note(kept)))|
         == |Digits(kept)| + EscapedLength("Only the first ") + EscapedLength(cut.NoteTail()) + 2
  {
    EscapedTail(cut.Note(kept), "");
    EscapedConcat("Only the first " + Digits(kept), cut.NoteTail());
    EscapedConcat("Only the first ", Digits(kept));
    DigitsRead(kept);
    EscapedDigits(Digits(kept));
  }

  lemma ObjectNoLonger(a: seq<Field>, b: seq<Field>)
    requires NoLonger(a, b)
    ensures |Print(Obj(a))| <= |Print(Obj(b))|
  {
    FieldsNoLonger(a, b, ['}'] + "", ['}'] + "");
  }

  lemma ListNoLonger(items: seq<Json>, k: nat)
    requires k < |items|
    ensures |Print(Arr(items[..k]))| <= |Print(Arr(items[..k + 1]))|
  {
    PrefixNoLonger(items, k, [']'] + "", [']'] + "");
  }

  lemma NoticeFieldsNoLonger(field: Json, r: Json, r': Json, total: Json, original: Json, n: Json, n': Json)
    requires |Print(r)| <= |Print(r')| && |Print(n)| <= |Print(n')|
    ensures NoLonger(NoticeFields(field, r, total, original, n), NoticeFields(field, r', total, original, n'))
  {}

  lemma NoticeNoLonger(cut: Cut, k: nat)
    ensures NoLonger(cut.Notice(k), cut.Notice(k + 1))
  {
    NoteLength(cut, k);
    NoteLength(cut, k + 1);
    DigitsLengthMonotone(k, k + 1);
    NoticeFieldsNoLonger(Str(cut.field), Num(Digits(k)), Num(Digits(k + 1)), Num(Digits(|cut.items|)),
                         Num(Digits(cut.characters)), Str(cut.Note(k)), Str(cut.Note(k + 1)));
  }

  lemma RenderGrowsByOne(cut: Cut, k: nat)
    requires k < |cut.items|
    ensures |cut.Renderer()(k)| <= |cut.Renderer()(k + 1)|
  {
    var a, b := Arr(cut.Kept(k)), Arr(cut.Kept(k + 1));
    assert cut.items[..|cut.items|] == cut.items;
    ListNoLonger(cut.items, k);
    SetKeyNoLonger(cut.container, cut.container, cut.field, a, b);
    var p, q := SetKey(cut.container, cut.field, a), SetKey(cut.container, cut.field, b);
    if cut.AddsCursor() {
      SetKeyNoLonger(p, q, "nextPageToken", Str(cut.cursor.value), Str(cut.cursor.value));
      p, q := SetKey(p, "nextPageToken", Str(cut.cursor.value)), SetKey(q, "nextPageToken", Str(cut.cursor.value));
    }
    NoticeNoLonger(cut, k);
    ObjectNoLonger(cut.Notice(k), cut.Notice(k + 1));
    SetKeyNoLonger(p, q, "berryTruncation", cut.Truncation(k), cut.Truncation(k + 1));
    ObjectNoLonger(cut.Rendered(k), cut.Rendered(k + 1));
  }

  ghost predicate Monotone(render: nat -> string, count: nat) {
    forall k, m | 0 <= k <= m <= count :: |render(k)| <= |render(m)|
  }

  lemma {:induction false} StepsMonotone(render: nat -> string, count: nat, k: nat, m: nat)
    requires forall i | 0 <= i < count :: |render(i)| <= |render(i + 1)|
    requires k <= m <= count
    ensures |render(k)| <= |render(m)|
    decreases m
  {
    if k < m {
      StepsMonotone(render, count, k, m - 1);
    }
  }

  lemma StepsGiveMonotone(render: nat -> string, count: nat)
    requires forall i | 0 <= i < count :: |render(i)| <= |render(i + 1)|
    ensures Monotone(render, count)
  {
    forall k, m | 0 <= k <= m <= count ensures |render(k)| <= |render(m)| {
      StepsMonotone(render, count, k, m);
    }
  }

  /** Keeping more items never renders shorter, growing counts included. */
  lemma RenderMonotone(cut: Cut)
    ensures Monotone(cut.Renderer(), |cut.items|)
  {
    forall i | 0 <= i < |cut.items| ensures |cut.Renderer()(i)| <= |cut.Renderer()(i + 1)| {
      RenderGrowsByOne(cut, i);
    }
    StepsGiveMonotone(cut.Renderer(), |cut.items|);
  }

  // ----- the bounded text -----

  /** The list to shorten, when there is one. */
  function Cutting(text: string, parsed: Option<Json>, structured: Json): Option<Cut> {
    match Container(parsed)
    case None => None
    case Some(container) =>
      match LargestList(container)
      case Some(Field(field, Arr(items))) =>
        if field == "" then None else Some(Cut(container, field, items, CursorFrom(structured), |text|))
      case _ => None
  }

  function Marker(text: string, structured: Json, limit: nat): string {
    "\n[Berry truncated this tool result: showing " + Grouped(limit) + " of " + Grouped(|text|)
    + " characters. Request a narrower range or a smaller page."
    + (match CursorFrom(structured)
       case Some(cursor) => " Exact next-page cursor: " + cursor
       case None => "")
    + "]"
  }

  /** The marker says how much of how long a text is shown. */
  lemma MarkerDiscloses(text: string, structured: Json, limit: nat)
    ensures "\n[Berry truncated this tool result: showing " + Grouped(limit) + " of " + Grouped(|text|)
            + " characters. Request a narrower range or a smaller page." <= Marker(text, structured, limit)
  {}

  /** It ends with the next page's cursor when there is one. */
  lemma MarkerNamesCursor(text: string, structured: Json, limit: nat)
    ensures var marker, cursor := Marker(text, structured, limit), CursorFrom(structured);
            var tail := if cursor.Some? then " Exact next-page cursor: " + cursor.value + "]" else "]";
            |tail| <= |marker| && marker[|marker| - |tail|..] == tail
  {}

  predicate Fits(render: nat -> string, count: nat, limit: nat, kept: nat) {
    kept <= count && |render(kept)| <= limit
  }

  /** The binary search: the largest prefix that fits, or zero when not even zero items do. */
  method LargestFit(render: nat -> string, count: nat, limit: nat) returns (kept: nat)
    requires Monotone(render, count)
    ensures kept <= count
    ensures forall k: nat :: Fits(render, count, limit, k) ==> k <= kept
    ensures Fits(render, count, limit, kept) <==> exists k: nat :: Fits(render, count, limit, k)
  {
    var low, high := 0, count;
    while low < high
      invariant 0 <= low <= high <= count
      invariant low > 0 ==> Fits(render, count, limit, low)
      invariant forall k: nat :: Fits(render, count, limit, k) ==> k <= high
    {
      var middle := (low + high + 1) / 2;
      if |render(middle)| <= limit {
        low := middle;
      } else {
        high := middle - 1;
      }
    }
    kept := low;
  }

  /** As much of the text as fits before the marker. */
  function Clipped(text: string, marker: string, limit: nat): (r: string)
    requires |text| > limit
    ensures |r| == (if |marker| <= limit then limit else |marker|)
    ensures r[|r| - |marker|..] == marker && r[..|r| - |marker|] <= text
  {
    text[..if limit < |marker| then 0 else limit - |marker|] + marker
  }

  /** `r` is the rendering of the largest prefix that fits. */
  ghost predicate BestRendering(render: nat -> string, count: nat, limit: nat, r: string) {
    exists k: nat :: Fits(render, count, limit, k) && r == render(k)
                  && forall m: nat :: Fits(render, count, limit, m) ==> m <= k
  }

  ghost predicate BoundedBy(render: nat -> string, count: nat, text: string, marker: string, limit: nat, r: string)
    requires |text| > limit
  {
    if exists k: nat :: Fits(render, count, limit, k)
    then BestRendering(render, count, limit, r)
    else r == Clipped(text, marker, limit)
  }

  method BoundWith(render: nat -> string, count: nat, text: string, marker: string, limit: nat) returns (r: string)
    requires |text| > limit && Monotone(render, count)
    ensures BoundedBy(render, count, text, marker, limit, r)
    ensures |marker| <= limit ==> |r| <= limit
  {
    var kept := LargestFit(render, count, limit);
    var fitted := render(kept);
    if |fitted| <= limit {
      assert Fits(render, count, limit, kept);
      return fitted;
    }
    r := Clipped(text, marker, limit);
  }

  /** What a bounded text is, for an over-long `text`. */
  ghost predicate Bounds(text: string, cutting: Option<Cut>, marker: string, limit: nat, r: string)
    requires |text| > limit
  {
    match cutting
    case None => r == Clipped(text, marker, limit)
    case Some(cut) => BoundedBy(cut.Renderer(), |cut.items|, text, marker, limit, r)
  }

  method BoundCut(text: string, cutting: Option<Cut>, marker: string, limit: nat) returns (r: string)
    requires |text| > limit
    ensures Bounds(text, cutting, marker, limit, r)
    ensures |marker| <= limit ==> |r| <= limit
  {
    if cutting.Some? {
      var cut := cutting.value;
      RenderMonotone(cut);
      r := BoundWith(cut.Renderer(), |cut.items|, text, marker, limit);
    } else {
      r := Clipped(text, marker, limit);
    }
  }

  method BoundedMcpText(text: string, parsed: Option<Json>, structured: Json, limit: nat) returns (r: string)
    ensures |text| <= limit ==> r == text
    ensures |text| > limit ==> Bounds(text, Cutting(text, parsed, structured), Marker(text, structured, limit), limit, r)
    ensures |text| <= limit || |Marker(text, structured, limit)| <= limit ==> |r| <= limit
  {
    if |text| <= limit {
      return text;
    }
    r := BoundCut(text, Cutting(text, parsed, structured), Marker(text, structured, limit), limit);
  }

  /** The longest list of a parsed object gets shortened, unless its key is empty. */
  lemma CutsTheLongestList(text: string, fields: seq<Field>, structured: Json, k: nat)
    requires IsLongest(fields, k)
    ensures Cutting(text, Some(Obj(fields)), structured)
            == if fields[k].key == "" then None else Some(Cut(fields, fields[k].key, fields[k].value.items, CursorFrom(structured), |text|))
  {
    var first := LargestIsFirst(fields);
  }

  /** A parsed array is the longest list under `items`; without a list nothing is shortened. */
  lemma CutsNothingElse(text: string, parsed: Option<Json>, structured: Json)
    ensures parsed.Some? && parsed.value.Arr? ==>
              Cutting(text, parsed, structured)
              == Some(Cut([Field("items", parsed.value)], "items", parsed.value.items, CursorFrom(structured), |text|))
    ensures parsed.Some? && parsed.value.Obj? && (forall i | 0 <= i < |parsed.value.fields| :: !parsed.value.fields[i].value.Arr?) ==>
              Cutting(text, parsed, structured).None?
    ensures parsed.None? || !(parsed.value.Arr? || parsed.value.Obj?) ==> Cutting(text, parsed, structured).None?
  {
    if parsed.Some? && parsed.value.Obj? && LargestList(parsed.value.fields).Some? {
      assert LargestList(parsed.value.fields).value in parsed.value.fields;
    }
  }

  // ----- what the cut keeps -----

  lemma {:induction false} LookupAfterSet(fields: seq<Field>, key: string, value: Json, k: string)
    ensures Lookup(SetKey(fields, key, value), k) == if k == key then Some(value) else Lookup(fields, k)
  {
    if fields != [] && fields[0].key != key {
      LookupAfterSet(fields[1..], key, value, k);
    }
  }

  /** There is no cursor to a next page, or a top-level entry holds it already. */
  ghost predicate NoNewCursor(cut: Cut) {
    || cut.cursor.None? || cut.cursor.value == ""
    || exists i | 0 <= i < |cut.container| :: cut.container[i].value == Str(cut.cursor.value)
  }

  /**
   * Every other top-level entry survives a cut unchanged. The shortened list
   * itself survives exactly when its key is not one the cut writes afterwards:
   * a list stored under `berryTruncation` is replaced by the notice.
   */
  lemma CutKeeps(cut: Cut, kept: nat, key: string)
    requires key != "berryTruncation" && (key == "nextPageToken" ==> NoNewCursor(cut))
    ensures Lookup(cut.Rendered(kept), key)
         == if key == cut.field then Some(Arr(cut.Kept(kept))) else Lookup(cut.container, key)
  {
    var p := SetKey(cut.container, cut.field, Arr(cut.Kept(kept)));
    LookupAfterSet(cut.container, cut.field, Arr(cut.Kept(kept)), key);
    if cut.AddsCursor() {
      LookupAfterSet(p, "nextPageToken", Str(cut.cursor.value), key);
      p := SetKey(p, "nextPageToken", Str(cut.cursor.value));
    }
    LookupAfterSet(p, "berryTruncation", cut.Truncation(kept), key);
  }

  /** The notice says which list was cut, how many of how many items it shows, and how long the text was. */
  lemma CutDiscloses(cut: Cut, kept: nat)
    ensures var notice := Lookup(cut.Rendered(kept), "berryTruncation");
            && notice.Some? && notice.value.Obj? && |notice.value.fields| == 5
            && Lookup(notice.value.fields, "field") == Some(Str(cut.field))
            && Lookup(notice.value.fields, "returnedItems") == Some(Num(Digits(kept)))
            && Lookup(notice.value.fields, "totalItems") == Some(Num(Digits(|cut.items|)))
            && Lookup(notice.value.fields, "originalCharacters") == Some(Num(Digits(cut.characters)))
            && Lookup(notice.value.fields, "note") == Some(Str(
                 "Only the first " + Digits(kept) + (" of " + Digits(|cut.items|) + " " + cut.field
                 + " fit in this result. Request a smaller page or narrower query for the rest; any page cursor above is exact.")))
  {
    NoticeIsShown(cut, kept);
    NoticeKeys(Str(cut.field), Num(Digits(kept)), Num(Digits(|cut.items|)), Num(Digits(cut.characters)), Str(cut.Note(kept)));
  }

  lemma NoticeIsShown(cut: Cut, kept: nat)
    ensures Lookup(cut.Rendered(kept), "berryTruncation") == Some(Obj(cut.Notice(kept)))
  {
    var p := SetKey(cut.container, cut.field, Arr(cut.Kept(kept)));
    if cut.AddsCursor() { p := SetKey(p, "nextPageToken", Str(cut.cursor.value)); }
    LookupAfterSet(p, "berryTruncation", cut.Truncation(kept), "berryTruncation");
  }

  lemma NoticeKeys(field: Json, returned: Json, total: Json, original: Json, note: Json)
    ensures var notice := NoticeFields(field, returned, total, original, note);
            && Lookup(notice, "field") == Some(field) && Lookup(notice, "returnedItems") == Some(returned)
            && Lookup(notice, "totalItems") == Some(total) && Lookup(notice, "originalCharacters") == Some(original)
            && Lookup(notice, "note") == Some(note)
  {
    var notice := NoticeFields(field, returned, total, original, note);
    assert |notice[0].key| == 5 && |notice[1].key| == 13 && |notice[2].key| == 10 && |notice[3].key| == 18 && |notice[4].key| == 4;
    LookupAt(notice, 0);
    LookupAt(notice, 1);
    LookupAt(notice, 2);
    LookupAt(notice, 3);
    LookupAt(notice, 4);
  }

  lemma {:induction false} LookupAt(fields: seq<Field>, i: nat)
    requires i < |fields| && DistinctKeys(fields)
    ensures Lookup(fields, fields[i].key) == Some(fields[i].value)
  {
    if i > 0 { LookupAt(fields[1..], i - 1); }
  }

  /** The next page's cursor is added when there is one that no top-level entry holds already. */
  lemma CutNamesCursor(cut: Cut, kept: nat)
    requires !NoNewCursor(cut)
    ensures Lookup(cut.Rendered(kept), "nextPageToken") == Some(Str(cut.cursor.value))
  {
    var p := SetKey(cut.container, cut.field, Arr(cut.Kept(kept)));
    LookupAfterSet(p, "nextPageToken", Str(cut.cursor.value), "nextPageToken");
    LookupAfterSet(SetKey(p, "nextPageToken", Str(cut.cursor.value)), "berryTruncation", cut.Truncation(kept), "nextPageToken");
  }

  lemma ListSurvivesIff(cut: Cut, kept: nat)
    ensures Lookup(cut.Rendered(kept), cut.field) == Some(Arr(cut.Kept(kept)))
       <==> cut.field != "berryTruncation" && (cut.field == "nextPageToken" ==> NoNewCursor(cut))
  {
    if cut.field != "berryTruncation" && (cut.field == "nextPageToken" ==> NoNewCursor(cut)) {
      CutKeeps(cut, kept, cut.field);
    } else {
      OverwrittenField(cut, kept);
    }
  }

  lemma OverwrittenField(cut: Cut, kept: nat)
    requires cut.field == "berryTruncation" || (cut.field == "nextPageToken" && !NoNewCursor(cut))
    ensures Lookup(cut.Rendered(kept), cut.field) != Some(Arr(cut.Kept(kept)))
  {
    var p := SetKey(cut.container, cut.field, Arr(cut.Kept(kept)));
    if cut.AddsCursor() {
      LookupAfterSet(p, "nextPageToken", Str(cut.cursor.value), cut.field);
      p := SetKey(p, "nextPageToken", Str(cut.cursor.value));
    }
    LookupAfterSet(p, "berryTruncation", cut.Truncation(kept), cut.field);
  }
}
