/** The searchable filter select: which options the list shows for a query,
    which option is the current one, and what choosing an entry emits. */
module FilterSelect {
  import opened Wrappers
  import opened Text

  datatype SelectOption = SelectOption(value: string, caption: string)

  /** The option's lowercased label contains the lowercased query. */
  predicate Matches(o: SelectOption, query: string)
  {
    Contains(Lower(o.caption), Lower(query))
  }

  /** `options.filter((o) => o.caption.toLowerCase().includes(q))`. */
  function Keep(options: seq<SelectOption>, query: string): (r: seq<SelectOption>)
    ensures |r| <= |options|
    ensures forall o :: o in r <==> o in options && Matches(o, query)
  {
    if options == [] then []
    else (if Matches(options[0], query) then [options[0]] else []) + Keep(options[1..], query)
  }

  /** `filter` works entry by entry: filtering a concatenation filters each
      half in place. */
  lemma {:induction false} KeepAppend(a: seq<SelectOption>, b: seq<SelectOption>, query: string)
    ensures Keep(a + b, query) == Keep(a, query) + Keep(b, query)
  {
    if a != [] {
      assert (a + b)[0] == a[0];
      assert (a + b)[1..] == a[1..] + b;
      KeepAppend(a[1..], b, query);
    } else {
      assert a + b == b;
    }
  }

  /** Every copy of a matching option is kept and every copy of another one
      dropped, so duplicates keep their multiplicity. */
  lemma {:induction false} KeepCounts(options: seq<SelectOption>, query: string, o: SelectOption)
    ensures multiset(Keep(options, query))[o] == if Matches(o, query) then multiset(options)[o] else 0
  {
    if options != [] {
      KeepCounts(options[1..], query, o);
      assert options == [options[0]] + options[1..];
    }
  }

  /** `filtered`: every option when the select is not searchable or the
      query is empty, otherwise those whose label matches. */
  function Filtered(options: seq<SelectOption>, searchable: bool, query: string): (r: seq<SelectOption>)
    ensures !searchable || query == "" ==> r == options
    ensures searchable && query != "" ==> forall o :: o in r <==> o in options && Matches(o, query)
  {
    if !searchable || query == "" then options else Keep(options, query)
  }

  /** `a` is `b` with some entries removed, the rest in their order. */
  predicate Subsequence<T(==)>(a: seq<T>, b: seq<T>)
    decreases |b|
  {
    if a == [] then true
    else if b == [] then false
    else if a[0] == b[0] then Subsequence(a[1..], b[1..])
    else Subsequence(a, b[1..])
  }

  lemma {:induction false} SubsequenceOfSkip<T>(a: seq<T>, b: seq<T>, x: T)
    requires Subsequence(a, b)
    ensures Subsequence(a, [x] + b)
    decreases |b|, 1
  {
    if a != [] && a[0] == x {
      assert ([x] + b)[1..] == b;
      SubsequenceDropHead(a, b);
    } else {
      assert ([x] + b)[1..] == b;
    }
  }

  lemma {:induction false} SubsequenceDropHead<T>(a: seq<T>, b: seq<T>)
    requires a != [] && Subsequence(a, b)
    ensures Subsequence(a[1..], b)
    decreases |b|, 0
  {
    if a[0] == b[0] {
      SubsequenceOfSkip(a[1..], b[1..], b[0]);
      assert [b[0]] + b[1..] == b;
    } else {
      SubsequenceDropHead(a, b[1..]);
      SubsequenceOfSkip(a[1..], b[1..], b[0]);
      assert [b[0]] + b[1..] == b;
    }
  }

  /** The kept options are a subsequence of the options: same relative
      order, nothing added. */
  lemma {:induction false} KeepIsSubsequence(options: seq<SelectOption>, query: string)
    ensures Subsequence(Keep(options, query), options)
  {
    if options != [] {
      KeepIsSubsequence(options[1..], query);
      var rest := Keep(options[1..], query);
      if Matches(options[0], query) {
        assert Keep(options, query) == [options[0]] + rest;
        assert ([options[0]] + rest)[1..] == rest;
      } else {
        assert Keep(options, query) == rest;
        SubsequenceOfSkip(rest, options[1..], options[0]);
        assert [options[0]] + options[1..] == options;
      }
    }
  }

  /** `filtered` is always a subsequence of `options`. */
  lemma FilteredIsSubsequence(options: seq<SelectOption>, searchable: bool, query: string)
    ensures Subsequence(Filtered(options, searchable, query), options)
  {
    if !searchable || query == "" {
      SubsequenceRefl(options);
    } else {
      KeepIsSubsequence(options, query);
    }
  }

  lemma {:induction false} SubsequenceRefl<T>(a: seq<T>)
    ensures Subsequence(a, a)
  {
    if a != [] {
      SubsequenceRefl(a[1..]);
    }
  }

  /** `options.find((o) => o.value === value)`. */
  function Current(options: seq<SelectOption>, value: Option<string>): (r: Option<SelectOption>)
    ensures r.None? <==> forall i :: 0 <= i < |options| ==> Some(options[i].value) != value
    ensures r.Some? ==> exists i :: 0 <= i < |options| && options[i] == r.value && Some(r.value.value) == value &&
                                 forall j :: 0 <= j < i ==> Some(options[j].value) != value
  {
    if options == [] then None
    else if Some(options[0].value) == value then Some(options[0])
    else
      var r := Current(options[1..], value);
      if r.Some? then
        ShiftFirst(options, value, r.value);
        r
      else r
  }

  lemma ShiftFirst(options: seq<SelectOption>, value: Option<string>, o: SelectOption)
    requires options != [] && Some(options[0].value) != value
    requires exists i :: 0 <= i < |options[1..]| && options[1..][i] == o && Some(o.value) == value &&
                         forall j :: 0 <= j < i ==> Some(options[1..][j].value) != value
    ensures exists i :: 0 <= i < |options| && options[i] == o && Some(o.value) == value &&
                        forall j :: 0 <= j < i ==> Some(options[j].value) != value
  {
    var i :| 0 <= i < |options[1..]| && options[1..][i] == o && Some(o.value) == value &&
      forall j :: 0 <= j < i ==> Some(options[1..][j].value) != value;
    assert options[i + 1] == o;
    forall j | 0 <= j < i + 1
      ensures Some(options[j].value) != value
    {
      if j > 0 {
        assert options[j] == options[1..][j - 1];
      }
    }
  }

  /** The trigger's text: the current option's caption, or the placeholder
      when no option has the value. */
  function TriggerCaption(options: seq<SelectOption>, value: Option<string>, placeholder: string): (t: string)
    ensures (forall i :: 0 <= i < |options| ==> Some(options[i].value) != value) ==> t == placeholder
    ensures (exists i :: 0 <= i < |options| && Some(options[i].value) == value) ==>
      exists i :: 0 <= i < |options| && Some(options[i].value) == value && t == options[i].caption
  {
    match Current(options, value)
    case None => placeholder
    case Some(o) => o.caption
  }

  /** An entry of the popover list. */
  datatype Item = ClearItem | OptionItem(option: SelectOption, checked: bool)

  /** JavaScript truthiness of the optional `value` prop. */
  predicate Truthy(value: Option<string>) { value.Some? && value.value != "" }

  /** The entries handed to `<Command>`: "Limpiar filtro" first when `value`
      is truthy, then the filtered options, each with its check mark. */
  function Items(options: seq<SelectOption>, searchable: bool, query: string, value: Option<string>): (items: seq<Item>)
  {
    var shown := Filtered(options, searchable, query);
    (if Truthy(value) then [ClearItem] else []) +
      seq(|shown|, i requires 0 <= i < |shown| => OptionItem(shown[i], Some(shown[i].value) == value))
  }

  /** The clear entry is present exactly when `value` is truthy, and then
      only at the head; every other entry is a filtered option in order,
      checked exactly when its value is the current value. */
  lemma ItemsShape(options: seq<SelectOption>, searchable: bool, query: string, value: Option<string>)
    ensures var items := Items(options, searchable, query, value);
      var shown := Filtered(options, searchable, query);
      var k := if Truthy(value) then 1 else 0;
      |items| == k + |shown| &&
      (ClearItem in items <==> Truthy(value)) &&
      (forall i :: k <= i < |items| ==> items[i] == OptionItem(shown[i - k], Some(shown[i - k].value) == value))
  {
    var items := Items(options, searchable, query, value);
    var shown := Filtered(options, searchable, query);
    var k := if Truthy(value) then 1 else 0;
    assert forall i :: k <= i < |items| ==> items[i] == OptionItem(shown[i - k], Some(shown[i - k].value) == value);
    if Truthy(value) {
      assert items[0] == ClearItem;
    }
  }

  /** What choosing an entry hands to `onChange`: `undefined` for the clear
      entry, the option's value otherwise. */
  function Emitted(item: Item): (r: Option<string>)
    ensures r.None? <==> item.ClearItem?
    ensures item.OptionItem? ==> r == Some(item.option.value)
  {
    match item
    case ClearItem => None
    case OptionItem(o, _) => Some(o.value)
  }

  /** The popover's own state: whether it is open, and the search text. */
  class Popover {
    var open: bool
    var query: string

    constructor ()
      ensures !open && query == ""
    {
      open := false;
      query := "";
    }

    /** `onOpenChange`. */
    method OnOpenChange(b: bool)
      modifies this
      ensures open == b && query == old(query)
    {
      open := b;
    }

    /** `onValueChange` of the search input. */
    method OnQueryChange(q: string)
      modifies this
      ensures query == q && open == old(open)
    {
      query := q;
    }

    /** `onSelect` of an entry: emits what the entry stands for and closes
        the popover; the search text stays. */
    method Choose(item: Item) returns (emitted: Option<string>)
      modifies this
      ensures emitted == Emitted(item)
      ensures !open && query == old(query)
    {
      match item {
        case ClearItem =>
          emitted := None;
        case OptionItem(o, _) =>
          emitted := Some(o.value);
      }
      open := false;
    }
  }
}
