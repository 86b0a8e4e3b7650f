/** The Jinja helpers that turn a WTForms error mapping into the entries of
    the design system's error panel (eq_cir_management_ui/utils/jinja_functions.py). */
module ErrorPanel {
  import opened Strings
  import opened Wrappers

  /** One value of a WTForms error mapping: a list of messages (a plain
      field), a list of message lists (a FieldList, one list per row), or a
      nested mapping (a FormField). */
  datatype ErrVal =
    | Msgs(msgs: seq<string>)
    | Lists(lists: seq<seq<string>>)
    | Nested(fields: seq<(string, ErrVal)>)

  /** A Python dict from field name to error value, in its iteration order. */
  type FormErrors = seq<(string, ErrVal)>

  /** One `{"url": ..., "text": ...}` entry of the error panel. */
  datatype Entry = Entry(url: string, text: string)

  predicate HasKey(errors: FormErrors, key: string) {
    exists i :: 0 <= i < |errors| && errors[i].0 == key
  }

  /** `errors.get(key)`: the value of the first pair with that key (a dict has
      only one). */
  function Lookup(errors: FormErrors, key: string): (r: Option<ErrVal>)
    ensures r.Some? <==> HasKey(errors, key)
    ensures r.Some? ==> (key, r.value) in errors
  {
    if errors == [] then None
    else if errors[0].0 == key then Some(errors[0].1)
    else
      var r := Lookup(errors[1..], key);
      assert HasKey(errors, key) ==> HasKey(errors[1..], key) by {
        if HasKey(errors, key) {
          var i :| 0 <= i < |errors| && errors[i].0 == key;
          assert errors[1..][i - 1].0 == key;
        }
      }
      assert HasKey(errors[1..], key) ==> HasKey(errors, key) by {
        if HasKey(errors[1..], key) {
          var i :| 0 <= i < |errors[1..]| && errors[1..][i].0 == key;
          assert errors[i + 1].0 == key;
        }
      }
      r
  }

  predicate DistinctKeys(errors: FormErrors) {
    forall i, j :: 0 <= i < j < |errors| ==> errors[i].0 != errors[j].0
  }

  /** With distinct keys (as in a dict) the lookup finds the one pair. */
  lemma {:induction false} LookupDistinct(errors: FormErrors, i: nat)
    requires DistinctKeys(errors) && i < |errors|
    ensures Lookup(errors, errors[i].0) == Some(errors[i].1)
  {
    if i > 0 {
      assert errors[0].0 != errors[i].0;
      assert DistinctKeys(errors[1..]) by {
        forall a, b | 0 <= a < b < |errors[1..]| ensures errors[1..][a].0 != errors[1..][b].0 {
          assert errors[1..][a] == errors[a + 1] && errors[1..][b] == errors[b + 1];
        }
      }
      LookupDistinct(errors[1..], i - 1);
    }
  }

  // ---------------------------------------------------------------------------
  // create_error_panel_data, as a specification

  /** Anchor of a message-list field: `#{parent}-{field}_error` inside a
      nested form, `#{field}_error` at the top level. */
  function MessageUrl(parent: string, field: string): string {
    if parent != "" then "#" + parent + "-" + field + "_error" else "#" + field + "_error"
  }

  /** Anchor of the row at 1-based position `index` of a list of message lists. */
  function SublistUrl(field: string, index: nat): string {
    "#" + field + "-" + DecimalString(index) + "_error"
  }

  /** `if sublist and sublist[0]`: the row has a first message and it is not empty. */
  predicate Kept(sublist: seq<string>) {
    sublist != [] && sublist[0] != ""
  }

  /** Entries for the first n rows of a list of message lists; the row at
      0-based position i is numbered i + 1, whether or not earlier rows were kept. */
  function SublistEntries(field: string, lists: seq<seq<string>>, n: nat): seq<Entry>
    requires n <= |lists|
  {
    if n == 0 then []
    else
      SublistEntries(field, lists, n - 1)
      + (if Kept(lists[n - 1]) then [Entry(SublistUrl(field, n), lists[n - 1][0])] else [])
  }

  /** The entries one field contributes. */
  function FieldEntries(parent: string, field: string, v: ErrVal): seq<Entry>
    decreases v, 1
  {
    match v
    case Msgs(ms) => if ms == [] then [] else [Entry(MessageUrl(parent, field), ms[0])]
    case Lists(ls) => SublistEntries(field, ls, |ls|)
    case Nested(fs) => EntriesOf(fs, field, |fs|)
  }

  /** The entries of the first n fields, in that order. */
  function EntriesOf(errors: FormErrors, parent: string, n: nat): seq<Entry>
    requires n <= |errors|
    decreases Nested(errors), 0, n
  {
    if n == 0 then [] else EntriesOf(errors, parent, n - 1) + FieldEntries(parent, errors[n - 1].0, errors[n - 1].1)
  }

  /** The fields named by `order`, in that order, skipping names the mapping lacks. */
  function Selected(errors: FormErrors, order: seq<string>): FormErrors {
    if order == [] then []
    else
      var key := order[|order| - 1];
      var found := Lookup(errors, key);
      Selected(errors, order[..|order| - 1]) + (if found.Some? then [(key, found.value)] else [])
  }

  /** `error_process_order`: the mapping's own order when no order is given. */
  function ProcessOrder(errors: FormErrors, order: seq<string>): FormErrors {
    if order == [] then errors else Selected(errors, order)
  }

  /** The value `create_error_panel_data(errors, parent, order)` returns. */
  function PanelData(errors: FormErrors, parent: string, order: seq<string>): seq<Entry> {
    var fields := ProcessOrder(errors, order);
    EntriesOf(fields, parent, |fields|)
  }

  // ---------------------------------------------------------------------------
  // create_error_panel_data, as the source runs it

  method CreateErrorPanelData(formErrors: FormErrors, parentString: string, errorOrder: seq<string>)
    returns (fieldErrors: seq<Entry>)
    ensures fieldErrors == PanelData(formErrors, parentString, errorOrder)
    decreases Nested(formErrors)
  {
    fieldErrors := [];

    // The pairs to report: the named fields in the given order, or the whole mapping
    var errorProcessOrder: FormErrors := [];
    if errorOrder != [] {
      for j := 0 to |errorOrder|
        invariant errorProcessOrder == Selected(formErrors, errorOrder[..j])
        invariant forall k :: 0 <= k < |errorProcessOrder| ==> errorProcessOrder[k] in formErrors
      {
        var formErrorKey := errorOrder[j];
        assert errorOrder[..j + 1][..j] == errorOrder[..j];
        var found := Lookup(formErrors, formErrorKey);
        if found.Some? {
          errorProcessOrder := errorProcessOrder + [(formErrorKey, found.value)];
        }
      }
      assert errorOrder[..|errorOrder|] == errorOrder;
    } else {
      for j := 0 to |formErrors|
        invariant errorProcessOrder == formErrors[..j]
      {
        errorProcessOrder := errorProcessOrder + [formErrors[j]];
      }
      assert formErrors[..|formErrors|] == formErrors;
    }

    for i := 0 to |errorProcessOrder|
      invariant fieldErrors == EntriesOf(errorProcessOrder, parentString, i)
    {
      var (field, errorObj) := errorProcessOrder[i];
      match errorObj
      case Msgs(errorList) =>
        if errorList != [] {
          var url := if parentString != "" then "#" + parentString + "-" + field + "_error" else "#" + field + "_error";
          fieldErrors := fieldErrors + [Entry(url, errorList[0])];
        }
      case Lists(errorList) =>
        ghost var before := fieldErrors;
        for index := 1 to |errorList| + 1
          invariant fieldErrors == before + SublistEntries(field, errorList, index - 1)
        {
          var sublist := errorList[index - 1];
          if sublist != [] && sublist[0] != "" {
            fieldErrors := fieldErrors + [Entry("#" + field + "-" + DecimalString(index) + "_error", sublist[0])];
          }
        }
      case Nested(fields) =>
        assert errorProcessOrder[i] in formErrors;
        var newFieldErrors := CreateErrorPanelData(fields, field, []);
        fieldErrors := fieldErrors + newFieldErrors;
    }
  }

  // ---------------------------------------------------------------------------
  // create_ordered_error_panel_data

  /** The entries of `panel` whose url is `url`, in panel order. */
  function UrlMatches(panel: seq<Entry>, url: string): seq<Entry> {
    if panel == [] then []
    else UrlMatches(panel[..|panel| - 1], url) + (if panel[|panel| - 1].url == url then [panel[|panel| - 1]] else [])
  }

  /** The panel entries grouped by `urls`, one group per listed url. */
  function OrderedPanel(panel: seq<Entry>, urls: seq<string>): seq<Entry> {
    if urls == [] then [] else OrderedPanel(panel, urls[..|urls| - 1]) + UrlMatches(panel, urls[|urls| - 1])
  }

  method CreateOrderedErrorPanelData(formErrors: FormErrors, errorOrder: seq<string>)
    returns (orderedErrors: seq<Entry>)
    ensures orderedErrors == OrderedPanel(PanelData(formErrors, "", []), errorOrder)
  {
    orderedErrors := [];
    var errorPanelData := CreateErrorPanelData(formErrors, "", []);
    for i := 0 to |errorOrder|
      invariant orderedErrors == OrderedPanel(errorPanelData, errorOrder[..i])
    {
      var fieldUrl := errorOrder[i];
      assert errorOrder[..i + 1][..i] == errorOrder[..i];
      ghost var before := orderedErrors;
      for j := 0 to |errorPanelData|
        invariant orderedErrors == before + UrlMatches(errorPanelData[..j], fieldUrl)
      {
        assert errorPanelData[..j + 1][..j] == errorPanelData[..j];
        if errorPanelData[j].url == fieldUrl {
          orderedErrors := orderedErrors + [errorPanelData[j]];
        }
      }
      assert errorPanelData[..|errorPanelData|] == errorPanelData;
    }
    assert errorOrder[..|errorOrder|] == errorOrder;
  }

  // ---------------------------------------------------------------------------
  // Properties of the panel

  /** The entries of the first k fields depend on those fields only. */
  lemma {:induction false} EntriesOfAgree(s: FormErrors, t: FormErrors, parent: string, k: nat)
    requires k <= |s| && k <= |t| && s[..k] == t[..k]
    ensures EntriesOf(s, parent, k) == EntriesOf(t, parent, k)
  {
    if k > 0 {
      assert s[k - 1] == s[..k][k - 1] == t[..k][k - 1] == t[k - 1];
      assert s[..k - 1] == s[..k][..k - 1] == t[..k][..k - 1] == t[..k - 1];
      EntriesOfAgree(s, t, parent, k - 1);
    }
  }

  /** Walking two mappings one after the other gives the two panels one after
      the other. */
  lemma {:induction false} EntriesOfAppend(a: FormErrors, b: FormErrors, parent: string, n: nat)
    requires n <= |b|
    ensures EntriesOf(a + b, parent, |a| + n) == EntriesOf(a, parent, |a|) + EntriesOf(b, parent, n)
  {
    if n == 0 {
      assert (a + b)[..|a|] == a[..|a|];
      EntriesOfAgree(a + b, a, parent, |a|);
    } else {
      EntriesOfAppend(a, b, parent, n - 1);
      assert (a + b)[|a| + n - 1] == b[n - 1];
    }
  }

  /** What one name of an explicit order contributes: the field's entries
      when the mapping has it, nothing otherwise. */
  function Contribution(errors: FormErrors, parent: string, key: string): seq<Entry> {
    match Lookup(errors, key)
    case None => []
    case Some(v) => FieldEntries(parent, key, v)
  }

  lemma {:induction false} SelectedAppend(errors: FormErrors, o1: seq<string>, o2: seq<string>)
    ensures Selected(errors, o1 + o2) == Selected(errors, o1) + Selected(errors, o2)
  {
    if o2 != [] {
      assert (o1 + o2)[..|o1 + o2| - 1] == o1 + o2[..|o2| - 1];
      SelectedAppend(errors, o1, o2[..|o2| - 1]);
    } else {
      assert o1 + o2 == o1;
    }
  }

  /** With an explicit order, the panel is built name by name in that order:
      a single name gives that field's entries (nothing when the mapping
      lacks it), and naming one more field appends its entries. */
  lemma ExplicitOrderStep(errors: FormErrors, parent: string, order: seq<string>, key: string)
    ensures PanelData(errors, parent, [key]) == Contribution(errors, parent, key)
    ensures order != [] ==>
      PanelData(errors, parent, order + [key]) == PanelData(errors, parent, order) + Contribution(errors, parent, key)
  {
    var single := Selected(errors, [key]);
    var found := Lookup(errors, key);
    assert [key][..0] == [] && [key][0] == key;
    assert single == Selected(errors, []) + (if found.Some? then [(key, found.value)] else []);
    if found.Some? {
      assert single == [(key, found.value)];
      assert EntriesOf(single, parent, 1) == EntriesOf(single, parent, 0) + FieldEntries(parent, key, found.value);
    }
    if order != [] {
      SelectedAppend(errors, order, [key]);
      EntriesOfAppend(Selected(errors, order), single, parent, |single|);
    }
  }

  /** What each kind of value contributes: a message list gives one entry
      with its first message (later messages never matter), anchored under
      the parent when there is one; a list of rows ignores the parent; a
      nested mapping gives its own panel with the field as parent and its
      own order. */
  lemma FieldContribution(parent: string, field: string, ms: seq<string>, lists: seq<seq<string>>, other: string, nested: FormErrors)
    ensures |FieldEntries(parent, field, Msgs(ms))| == if ms == [] then 0 else 1
    ensures ms != [] ==> FieldEntries(parent, field, Msgs(ms)) == FieldEntries(parent, field, Msgs(ms[..1]))
    ensures ms != [] && parent != "" ==> FieldEntries(parent, field, Msgs(ms))[0] == Entry("#" + parent + "-" + field + "_error", ms[0])
    ensures ms != [] && parent == "" ==> FieldEntries(parent, field, Msgs(ms))[0] == Entry("#" + field + "_error", ms[0])
    ensures FieldEntries(parent, field, Lists(lists)) == FieldEntries(other, field, Lists(lists))
    ensures FieldEntries(parent, field, Nested(nested)) == PanelData(nested, field, [])
  {
  }

  /** Concatenating two explicit orders concatenates their panels. */
  lemma OrderConcat(errors: FormErrors, parent: string, o1: seq<string>, o2: seq<string>)
    requires o1 != [] && o2 != []
    ensures PanelData(errors, parent, o1 + o2) == PanelData(errors, parent, o1) + PanelData(errors, parent, o2)
  {
    SelectedAppend(errors, o1, o2);
    EntriesOfAppend(Selected(errors, o1), Selected(errors, o2), parent, |Selected(errors, o2)|);
  }

  /** The mapping without the pairs whose key is `key`. */
  function RemoveField(errors: FormErrors, key: string): (r: FormErrors)
    ensures |r| <= |errors|
  {
    if errors == [] then []
    else (if errors[0].0 == key then [] else [errors[0]]) + RemoveField(errors[1..], key)
  }

  lemma {:induction false} LookupRemoveField(errors: FormErrors, key: string, other: string)
    requires other != key
    ensures Lookup(RemoveField(errors, key), other) == Lookup(errors, other)
  {
    if errors != [] {
      var rest := RemoveField(errors[1..], key);
      LookupRemoveField(errors[1..], key, other);
      if errors[0].0 == key {
        assert RemoveField(errors, key) == rest;
      } else {
        var r := RemoveField(errors, key);
        assert r == [errors[0]] + rest;
        assert r[0] == errors[0] && r[1..] == rest;
      }
    }
  }

  lemma {:induction false} SelectedIgnoresRemoved(errors: FormErrors, key: string, order: seq<string>)
    requires key !in order
    ensures Selected(RemoveField(errors, key), order) == Selected(errors, order)
  {
    if order != [] {
      var init := order[..|order| - 1];
      assert forall x :: x in init ==> x in order;
      SelectedIgnoresRemoved(errors, key, init);
      LookupRemoveField(errors, key, order[|order| - 1]);
    }
  }

  /** With an explicit order, a field that the order does not name contributes
      nothing: the panel is the same whether or not the mapping has it. */
  lemma UnnamedFieldIgnored(errors: FormErrors, parent: string, order: seq<string>, key: string)
    requires order != [] && key !in order
    ensures PanelData(RemoveField(errors, key), parent, order) == PanelData(errors, parent, order)
  {
    SelectedIgnoresRemoved(errors, key, order);
  }

  /** The field names of a mapping, in its order. */
  function KeysOf(errors: FormErrors): (keys: seq<string>)
    ensures |keys| == |errors|
    ensures forall i :: 0 <= i < |errors| ==> keys[i] == errors[i].0
  {
    if errors == [] then [] else KeysOf(errors[..|errors| - 1]) + [errors[|errors| - 1].0]
  }

  lemma {:induction false} SelectedAllKeys(errors: FormErrors, n: nat)
    requires DistinctKeys(errors) && n <= |errors|
    ensures Selected(errors, KeysOf(errors)[..n]) == errors[..n]
  {
    if n > 0 {
      var order := KeysOf(errors)[..n];
      var key := errors[n - 1].0;
      assert order[..n - 1] == KeysOf(errors)[..n - 1];
      assert order[n - 1] == key;
      SelectedAllKeys(errors, n - 1);
      LookupDistinct(errors, n - 1);
      calc {
        Selected(errors, order);
        Selected(errors, order[..n - 1]) + [(key, errors[n - 1].1)];
        errors[..n - 1] + [errors[n - 1]];
        { assert errors[..n] == errors[..n - 1] + [errors[n - 1]]; }
        errors[..n];
      }
    }
  }

  /** Naming every field of a dict, in its own order, gives the same panel as
      giving no order at all. */
  lemma FullOrderMatchesDefault(errors: FormErrors, parent: string)
    requires DistinctKeys(errors)
    ensures PanelData(errors, parent, KeysOf(errors)) == PanelData(errors, parent, [])
  {
    SelectedAllKeys(errors, |errors|);
    assert KeysOf(errors)[..|errors|] == KeysOf(errors);
    assert errors[..|errors|] == errors;
  }

  /** A nested mapping's entries, built with its own name as parent and its
      own order, come after the entries of the fields before it. */
  lemma NestedAppended(errors: FormErrors, parent: string, field: string, nested: FormErrors)
    ensures PanelData(errors + [(field, Nested(nested))], parent, [])
         == PanelData(errors, parent, []) + PanelData(nested, field, [])
  {
    EntriesOfAppend(errors, [(field, Nested(nested))], parent, 1);
  }

  function KeptCount(lists: seq<seq<string>>, n: nat): nat
    requires n <= |lists|
  {
    if n == 0 then 0 else KeptCount(lists, n - 1) + (if Kept(lists[n - 1]) then 1 else 0)
  }

  /** A list of message lists gives one entry per row whose first message is
      non-empty, anchored at the row's 1-based position (skipped rows still
      count), and nothing else. */
  lemma {:induction false} SublistEntriesSpec(field: string, lists: seq<seq<string>>, n: nat, e: Entry)
    requires n <= |lists|
    ensures |SublistEntries(field, lists, n)| == KeptCount(lists, n)
    ensures e in SublistEntries(field, lists, n) <==>
      exists i :: 0 <= i < n && Kept(lists[i]) && e == Entry(SublistUrl(field, i + 1), lists[i][0])
  {
    if n > 0 {
      SublistEntriesSpec(field, lists, n - 1, e);
      if e in SublistEntries(field, lists, n - 1) {
        var i :| 0 <= i < n - 1 && Kept(lists[i]) && e == Entry(SublistUrl(field, i + 1), lists[i][0]);
      }
    }
  }

  /** Two rows never share an anchor. */
  lemma SublistUrlInjective(field: string, i: nat, j: nat)
    requires SublistUrl(field, i) == SublistUrl(field, j)
    ensures i == j
  {
    var si, sj := DecimalString(i), DecimalString(j);
    assert SublistUrl(field, i) == ("#" + field + "-") + si + "_error";
    assert SublistUrl(field, j) == ("#" + field + "-") + sj + "_error";
    var k := |"#" + field + "-"|;
    assert |si| == |sj|;
    assert si == SublistUrl(field, i)[k..k + |si|];
    assert sj == SublistUrl(field, j)[k..k + |sj|];
    DecimalInjective(i, j);
  }

  /** A value that puts at least one entry on the panel. */
  predicate Reportable(v: ErrVal)
    decreases v
  {
    match v
    case Msgs(ms) => ms != []
    case Lists(ls) => exists i :: 0 <= i < |ls| && Kept(ls[i])
    case Nested(fs) => exists i :: 0 <= i < |fs| && Reportable(fs[i].1)
  }

  lemma {:induction false} SublistEntriesEmpty(field: string, lists: seq<seq<string>>, n: nat)
    requires n <= |lists|
    ensures SublistEntries(field, lists, n) == [] <==> forall i :: 0 <= i < n ==> !Kept(lists[i])
  {
    if n > 0 {
      SublistEntriesEmpty(field, lists, n - 1);
    }
  }

  lemma {:induction false} FieldEntriesEmpty(parent: string, field: string, v: ErrVal)
    ensures FieldEntries(parent, field, v) == [] <==> !Reportable(v)
    decreases v, 1
  {
    match v
    case Msgs(ms) =>
    case Lists(ls) => SublistEntriesEmpty(field, ls, |ls|);
    case Nested(fs) => EntriesOfEmpty(fs, field, |fs|);
  }

  lemma {:induction false} EntriesOfEmpty(errors: FormErrors, parent: string, n: nat)
    requires n <= |errors|
    ensures EntriesOf(errors, parent, n) == [] <==> forall i :: 0 <= i < n ==> !Reportable(errors[i].1)
    decreases Nested(errors), 0, n
  {
    if n > 0 {
      EntriesOfEmpty(errors, parent, n - 1);
      FieldEntriesEmpty(parent, errors[n - 1].0, errors[n - 1].1);
    }
  }

  /** The panel is empty exactly when no field, at any depth, holds a message
      that would be shown: an empty list contributes nothing, and neither
      does a row whose first message is empty. */
  lemma PanelEmptyIff(errors: FormErrors, parent: string)
    ensures PanelData(errors, parent, []) == [] <==> forall i :: 0 <= i < |errors| ==> !Reportable(errors[i].1)
  {
    EntriesOfEmpty(errors, parent, |errors|);
  }

  /** An in-page anchor of the form `#..._error`. */
  predicate IsErrorAnchor(url: string) {
    |url| >= 7 && url[0] == '#' && url[|url| - 6..] == "_error"
  }

  lemma AnchorShape(middle: string)
    ensures IsErrorAnchor("#" + middle + "_error")
  {
    var u := "#" + middle + "_error";
    assert u[|u| - 6..] == "_error";
  }

  lemma {:induction false} SublistAnchors(field: string, lists: seq<seq<string>>, n: nat)
    requires n <= |lists|
    ensures forall e :: e in SublistEntries(field, lists, n) ==> IsErrorAnchor(e.url)
  {
    if n > 0 {
      SublistAnchors(field, lists, n - 1);
      AnchorShape(field + "-" + DecimalString(n));
      assert SublistUrl(field, n) == "#" + (field + "-" + DecimalString(n)) + "_error";
    }
  }

  lemma {:induction false} FieldAnchors(parent: string, field: string, v: ErrVal)
    ensures forall e :: e in FieldEntries(parent, field, v) ==> IsErrorAnchor(e.url)
    decreases v, 1
  {
    match v
    case Msgs(ms) =>
      AnchorShape(parent + "-" + field);
      AnchorShape(field);
      assert "#" + parent + "-" + field + "_error" == "#" + (parent + "-" + field) + "_error";
    case Lists(ls) => SublistAnchors(field, ls, |ls|);
    case Nested(fs) => EntriesAnchors(fs, field, |fs|);
  }

  lemma {:induction false} EntriesAnchors(errors: FormErrors, parent: string, n: nat)
    requires n <= |errors|
    ensures forall e :: e in EntriesOf(errors, parent, n) ==> IsErrorAnchor(e.url)
    decreases Nested(errors), 0, n
  {
    if n > 0 {
      EntriesAnchors(errors, parent, n - 1);
      FieldAnchors(parent, errors[n - 1].0, errors[n - 1].1);
    }
  }

  /** Every url on the panel, in any order and at any depth, is an in-page
      anchor `#..._error`. */
  lemma PanelAnchors(errors: FormErrors, parent: string, order: seq<string>)
    ensures forall e :: e in PanelData(errors, parent, order) ==> IsErrorAnchor(e.url)
  {
    var fields := ProcessOrder(errors, order);
    EntriesAnchors(fields, parent, |fields|);
  }

  // ---------------------------------------------------------------------------
  // Properties of the ordered panel

  lemma {:induction false} UrlMatchesCount(panel: seq<Entry>, url: string, e: Entry)
    ensures multiset(UrlMatches(panel, url))[e] == if e.url == url then multiset(panel)[e] else 0
  {
    if panel != [] {
      var last := panel[|panel| - 1];
      UrlMatchesCount(panel[..|panel| - 1], url, e);
      assert panel == panel[..|panel| - 1] + [last];
    }
  }

  lemma MulSucc(m: nat, c: nat)
    ensures m * (c + 1) == m * c + m
  {
  }

  /** Each panel entry appears in the ordered panel once for every time its
      url is listed: dropped when the url is not listed, repeated when the url
      is listed twice. */
  lemma {:induction false} OrderedPanelCount(panel: seq<Entry>, urls: seq<string>, e: Entry)
    ensures multiset(OrderedPanel(panel, urls))[e] == multiset(panel)[e] * multiset(urls)[e.url]
  {
    if urls != [] {
      var init, last := urls[..|urls| - 1], urls[|urls| - 1];
      OrderedPanelCount(panel, init, e);
      UrlMatchesCount(panel, last, e);
      assert urls == init + [last];
      var m, c := multiset(panel)[e], multiset(init)[e.url];
      assert multiset(OrderedPanel(panel, urls))[e]
          == m * c + multiset(UrlMatches(panel, last))[e];
      if last == e.url {
        assert multiset(urls)[e.url] == c + 1;
        MulSucc(m, c);
      } else {
        assert multiset(urls)[e.url] == c;
      }
    }
  }

  /** The ordered panel holds exactly the entries whose url is listed. */
  lemma OrderedPanelMembers(panel: seq<Entry>, urls: seq<string>, e: Entry)
    ensures e in OrderedPanel(panel, urls) <==> e in panel && e.url in urls
  {
    OrderedPanelCount(panel, urls, e);
    var m, c := multiset(panel)[e], multiset(urls)[e.url];
    assert m > 0 && c > 0 ==> m * c > 0;
  }

  // ---------------------------------------------------------------------------
  // get_field_error

  /** The `text` of a field error: `errors[0]`, a message for a plain field
      and a whole row for a list of message lists. */
  datatype Message = Text(text: string) | Row(messages: seq<string>)

  /** The Python exceptions the lookup can raise. */
  datatype PyException = KeyError | AttributeError

  /** What get_field_error gives: None, an `{"id", "text"}` dict, or an exception. */
  datatype FieldError = NoError | Found(id: string, text: Message) | Raised(exception: PyException)

  /** The `form_errors` argument: exactly a dict, or another mapping type
      (`type(form_errors) is dict` is false for a dict subclass too). */
  datatype ErrorsArg = PlainDict(entries: FormErrors) | OtherMapping(entries: FormErrors)

  /** Python truthiness of `form_errors.get(key)`: None and empty containers are false. */
  predicate Truthy(v: Option<ErrVal>) {
    match v
    case None => false
    case Some(Msgs(ms)) => ms != []
    case Some(Lists(ls)) => ls != []
    case Some(Nested(fs)) => fs != []
  }

  /** `{"id": f"{field_id}_error", "text": errors[0]}` for a truthy value;
      indexing a mapping keyed by field names with 0 raises KeyError. */
  function FirstError(fieldId: string, v: ErrVal): FieldError
    requires Truthy(Some(v))
  {
    match v
    case Msgs(ms) => Found(fieldId + "_error", Text(ms[0]))
    case Lists(ls) => Found(fieldId + "_error", Row(ls[0]))
    case Nested(_) => Raised(KeyError)
  }

  /** The branch that looks the whole id up: None for a missing or empty
      entry, the first message of a message list, the first row of a list of
      rows, and KeyError for a nested mapping. */
  function DirectFieldError(fieldId: string, errors: FormErrors): (r: FieldError)
    ensures r == NoError <==> !Truthy(Lookup(errors, fieldId))
    ensures r.Found? ==> r.id == fieldId + "_error"
    ensures r.Raised? <==> Truthy(Lookup(errors, fieldId)) && Lookup(errors, fieldId).value.Nested?
    ensures r.Raised? ==> r.exception == KeyError
    ensures (Truthy(Lookup(errors, fieldId)) && Lookup(errors, fieldId).value.Msgs?) ==>
      r == Found(fieldId + "_error", Text(Lookup(errors, fieldId).value.msgs[0]))
  {
    var errorList := Lookup(errors, fieldId);
    if Truthy(errorList) then FirstError(fieldId, errorList.value) else NoError
  }

  /** The dashed branch, given its outer and inner keys; `.get` on a list
      raises AttributeError. */
  function NestedFieldError(fieldId: string, errors: FormErrors, errorKey: string, subErrorKey: string): (r: FieldError)
    ensures r.Found? ==> r.id == fieldId + "_error"
    ensures r == Raised(AttributeError) <==> Truthy(Lookup(errors, errorKey)) && !Lookup(errors, errorKey).value.Nested?
    ensures r == NoError <==>
      || !Truthy(Lookup(errors, errorKey))
      || (Lookup(errors, errorKey).value.Nested? && !Truthy(Lookup(Lookup(errors, errorKey).value.fields, subErrorKey)))
  {
    var errorList := Lookup(errors, errorKey);
    if !Truthy(errorList) then NoError
    else
      match errorList.value
      case Nested(fs) =>
        var errorSublist := Lookup(fs, subErrorKey);
        if Truthy(errorSublist) then FirstError(fieldId, errorSublist.value) else NoError
      case _ => Raised(AttributeError)
  }

  function GetFieldError(fieldId: string, formErrors: ErrorsArg): (r: FieldError)
    ensures r.Found? ==> r.id == fieldId + "_error"
  {
    match formErrors
    case PlainDict(errors) =>
      if '-' in fieldId then
        SplitAtLeastTwo(fieldId, '-');
        var parts := Split(fieldId, '-');
        NestedFieldError(fieldId, errors, parts[0], parts[1])
      else
        DirectFieldError(fieldId, errors)
    case OtherMapping(errors) =>
      DirectFieldError(fieldId, errors)
  }

  /** Without a dash, or for a mapping that is not exactly a dict, the whole
      id is looked up: a non-empty message list gives its first message, a
      missing field or an empty list gives None. */
  lemma UndashedFieldError(fieldId: string, formErrors: ErrorsArg, ms: seq<string>)
    requires '-' !in fieldId || formErrors.OtherMapping?
    ensures Lookup(formErrors.entries, fieldId) == Some(Msgs(ms)) ==>
      GetFieldError(fieldId, formErrors) == if ms == [] then NoError else Found(fieldId + "_error", Text(ms[0]))
    ensures !HasKey(formErrors.entries, fieldId) ==> GetFieldError(fieldId, formErrors) == NoError
  {
  }

  /** With a dash, for a dict, the outer key is the text before the first
      dash and the inner key the text between the first and second dashes;
      whatever follows is ignored for the lookup but kept in the id. A
      missing or empty outer entry gives None; a non-empty outer entry that
      is not a mapping raises AttributeError; in a nested mapping, a missing
      or empty inner entry gives None and a non-empty message list gives its
      first message. */
  lemma DashedFieldError(errors: FormErrors, outer: string, inner: string, rest: string)
    requires '-' !in outer && '-' !in inner
    requires rest == "" || rest[0] == '-'
    ensures GetFieldError(outer + "-" + inner + rest, PlainDict(errors))
         == NestedFieldError(outer + "-" + inner + rest, errors, outer, inner)
    ensures !Truthy(Lookup(errors, outer)) ==> GetFieldError(outer + "-" + inner + rest, PlainDict(errors)) == NoError
    ensures Truthy(Lookup(errors, outer)) && !Lookup(errors, outer).value.Nested? ==>
      GetFieldError(outer + "-" + inner + rest, PlainDict(errors)) == Raised(AttributeError)
    ensures (Truthy(Lookup(errors, outer)) && Lookup(errors, outer).value.Nested?
             && !Truthy(Lookup(Lookup(errors, outer).value.fields, inner))) ==>
      GetFieldError(outer + "-" + inner + rest, PlainDict(errors)) == NoError
    ensures (Truthy(Lookup(errors, outer)) && Lookup(errors, outer).value.Nested?
             && Lookup(Lookup(errors, outer).value.fields, inner).Some?
             && Lookup(Lookup(errors, outer).value.fields, inner).value.Msgs?
             && Lookup(Lookup(errors, outer).value.fields, inner).value.msgs != []) ==>
      GetFieldError(outer + "-" + inner + rest, PlainDict(errors))
        == Found(outer + "-" + inner + rest + "_error", Text(Lookup(Lookup(errors, outer).value.fields, inner).value.msgs[0]))
  {
    var fieldId := outer + "-" + inner + rest;
    assert fieldId[|outer|] == '-';
    if rest == "" {
      assert fieldId == outer + ['-'] + inner;
      SplitPrefix(outer, '-', inner);
      SplitWhole(inner, '-');
    } else {
      var t := rest[1..];
      assert rest == ['-'] + t;
      assert fieldId == outer + ['-'] + (inner + ['-'] + t);
      SplitPrefix(outer, '-', inner + ['-'] + t);
      SplitPrefix(inner, '-', t);
    }
  }

  /** Every entry a field contributes is on the panel of a mapping that holds it. */
  lemma {:induction false} EntriesOfContains(errors: FormErrors, parent: string, n: nat, i: nat)
    requires i < n <= |errors|
    ensures forall e :: e in FieldEntries(parent, errors[i].0, errors[i].1) ==> e in EntriesOf(errors, parent, n)
  {
    if i < n - 1 {
      EntriesOfContains(errors, parent, n - 1, i);
    }
  }

  lemma PairOnPanel(errors: FormErrors, parent: string, field: string, v: ErrVal)
    requires (field, v) in errors
    ensures forall e :: e in FieldEntries(parent, field, v) ==> e in EntriesOf(errors, parent, |errors|)
  {
    var i :| 0 <= i < |errors| && errors[i] == (field, v);
    EntriesOfContains(errors, parent, |errors|, i);
  }

  /** For a top-level message field the panel links to `#` followed by the
      id get_field_error gives that field, with the same text. */
  lemma PanelLinksToFieldError(errors: FormErrors, field: string, ms: seq<string>)
    requires '-' !in field && ms != []
    requires Lookup(errors, field) == Some(Msgs(ms))
    ensures GetFieldError(field, PlainDict(errors)) == Found(field + "_error", Text(ms[0]))
    ensures Entry("#" + field + "_error", ms[0]) in PanelData(errors, "", [])
  {
    PairOnPanel(errors, "", field, Msgs(ms));
  }

  /** For a message field of a nested form the same holds with the id
      `{form}-{field}`, provided the form's name is not empty. */
  lemma NestedPanelLinksToFieldError(errors: FormErrors, form: string, nested: FormErrors, field: string, ms: seq<string>)
    requires form != "" && '-' !in form && '-' !in field && ms != []
    requires Lookup(errors, form) == Some(Nested(nested))
    requires Lookup(nested, field) == Some(Msgs(ms))
    ensures GetFieldError(form + "-" + field, PlainDict(errors)) == Found(form + "-" + field + "_error", Text(ms[0]))
    ensures Entry("#" + form + "-" + field + "_error", ms[0]) in PanelData(errors, "", [])
  {
    NestedFieldErrorFound(errors, form, nested, field, ms);
    var entry := Entry("#" + form + "-" + field + "_error", ms[0]);
    assert FieldEntries(form, field, Msgs(ms)) == [entry];
    PairOnPanel(nested, form, field, Msgs(ms));
    assert entry in FieldEntries("", form, Nested(nested));
    PairOnPanel(errors, "", form, Nested(nested));
  }

  lemma NestedFieldErrorFound(errors: FormErrors, form: string, nested: FormErrors, field: string, ms: seq<string>)
    requires '-' !in form && '-' !in field && ms != []
    requires Lookup(errors, form) == Some(Nested(nested))
    requires Lookup(nested, field) == Some(Msgs(ms))
    ensures GetFieldError(form + "-" + field, PlainDict(errors)) == Found(form + "-" + field + "_error", Text(ms[0]))
  {
    DashedFieldError(errors, form, field, "");
    assert form + "-" + field + "" == form + "-" + field;
    assert nested != [];
  }

  /** A row of a list of message lists is anchored at `#{field}-{n}_error`
      on the panel, yet get_field_error with the id `{field}-{n}` calls `.get`
      on the list and raises AttributeError. */
  lemma RowAnchorRaises(errors: FormErrors, field: string, lists: seq<seq<string>>, n: nat)
    requires '-' !in field && 1 <= n <= |lists| && Kept(lists[n - 1])
    requires Lookup(errors, field) == Some(Lists(lists))
    ensures Entry("#" + field + "-" + DecimalString(n) + "_error", lists[n - 1][0]) in PanelData(errors, "", [])
    ensures GetFieldError(field + "-" + DecimalString(n), PlainDict(errors)) == Raised(AttributeError)
  {
    var idx := DecimalString(n);
    assert '-' !in idx;
    DashedFieldError(errors, field, idx, "");
    assert field + "-" + idx + "" == field + "-" + idx;
    SublistEntriesSpec(field, lists, |lists|, Entry(SublistUrl(field, n), lists[n - 1][0]));
    PairOnPanel(errors, "", field, Lists(lists));
  }
}
