/** The `Steps` / `StepBadge` / `Step` components: a pure rendering of
    `(activeStep, items)` into step headers, connectors and one content panel. */
module StepsView {
  import opened Wrappers

  datatype Status = Complete | Current | Upcoming

  /** A `<Step>` child as `Steps` reads it: its label, its `optional` prop and
      its children (of any type `T`). */
  datatype Item<T> = Item(caption: string, optional: Option<bool>, children: T)

  /** What `StepBadge` draws: a check mark, or the 1-based step number on a
      highlighted (current) or plain (upcoming) disc. */
  datatype Badge = CheckMark | Number(n: int, highlighted: bool)

  datatype Header = Header(caption: string, optionalSuffix: bool, badge: Badge)

  /** A header followed, except after the last step, by a connector whose
      flag says whether it is drawn in the highlight colour. */
  datatype Fragment = Fragment(header: Header, connector: Option<bool>)

  /** The content area: the active child, or the completion message. */
  datatype Panel<T> = Child(content: T) | AllCompleted

  function StatusOf(activeStep: int, i: int): (st: Status)
    ensures st == Complete <==> activeStep > i
    ensures st == Current <==> activeStep == i
    ensures st == Upcoming <==> activeStep < i
  {
    if activeStep > i then Complete
    else if activeStep == i then Current
    else Upcoming
  }

  function BadgeOf(index: int, status: Status): (b: Badge)
    ensures b == CheckMark <==> status == Complete
    ensures b.Number? ==> b.n == index + 1 && (b.highlighted <==> status == Current)
  {
    if status == Complete then CheckMark
    else if status == Current then Number(index + 1, true)
    else Number(index + 1, false)
  }

  /** The header list `items.map(...)`, one fragment per child. */
  function Fragments<T>(activeStep: int, items: seq<Item<T>>, from: nat): (fs: seq<Fragment>)
    requires from <= |items|
    ensures |fs| == |items| - from
    ensures forall k :: 0 <= k < |fs| ==>
      var i := from + k;
      fs[k].header == Header(items[i].caption, items[i].optional == Some(true), BadgeOf(i, StatusOf(activeStep, i)))
    ensures forall k :: 0 <= k < |fs| ==>
      var i := from + k;
      (fs[k].connector.Some? <==> i < |items| - 1) &&
      (fs[k].connector.Some? ==> (fs[k].connector.value <==> StatusOf(activeStep, i) == Complete))
    decreases |items| - from
  {
    if from == |items| then []
    else
      var i := from;
      var st := StatusOf(activeStep, i);
      var h := Header(items[i].caption, items[i].optional.GetOr(false), BadgeOf(i, st));
      var c := if i < |items| - 1 then Some(st == Complete) else None;
      [Fragment(h, c)] + Fragments(activeStep, items, from + 1)
  }

  /** Number of fragments that carry a connector. */
  function ConnectorCount(fs: seq<Fragment>): nat
  {
    if fs == [] then 0
    else (if fs[0].connector.Some? then 1 else 0) + ConnectorCount(fs[1..])
  }

  /** `items.map((child, i) => i === activeStep ? child : null)`, the nulls
      being dropped by React. */
  function ActiveChildren<T>(activeStep: int, items: seq<Item<T>>, from: nat): (cs: seq<T>)
    requires from <= |items|
    decreases |items| - from
  {
    if from == |items| then []
    else (if from == activeStep then [items[from].children] else []) + ActiveChildren(activeStep, items, from + 1)
  }

  /** The content area of `Steps`. */
  function Content<T>(activeStep: int, items: seq<Item<T>>): seq<Panel<T>>
  {
    if activeStep < |items| then
      var cs := ActiveChildren(activeStep, items, 0);
      seq(|cs|, k requires 0 <= k < |cs| => Child(cs[k]))
    else [AllCompleted]
  }

  /** `Step` outside a `Steps` provider renders nothing; inside one it renders
      its children unchanged. */
  function RenderStep<T>(context: Option<int>, children: T): (r: Option<T>)
    ensures r.None? <==> context.None?
    ensures r.Some? ==> r.value == children
  {
    if context.None? then None else Some(children)
  }

  /** Below completion exactly one step is current; at or past completion
      every step is complete. */
  lemma StatusPartition(activeStep: int, total: nat)
    ensures 0 <= activeStep < total ==>
      StatusOf(activeStep, activeStep) == Current &&
      forall i :: 0 <= i < total && StatusOf(activeStep, i) == Current ==> i == activeStep
    ensures activeStep >= total ==> forall i :: 0 <= i < total ==> StatusOf(activeStep, i) == Complete
  {
  }

  /** Exactly `total - 1` connectors are drawn (none for an empty stepper). */
  lemma {:induction false} ConnectorsBetweenPairs<T>(activeStep: int, items: seq<Item<T>>, from: nat)
    requires from <= |items|
    ensures ConnectorCount(Fragments(activeStep, items, from)) == if from < |items| then |items| - 1 - from else 0
    decreases |items| - from
  {
    if from < |items| {
      var fs := Fragments(activeStep, items, from);
      assert fs[1..] == Fragments(activeStep, items, from + 1);
      ConnectorsBetweenPairs(activeStep, items, from + 1);
    }
  }

  lemma {:induction false} ActiveChildrenFrom<T>(activeStep: int, items: seq<Item<T>>, from: nat)
    requires from <= |items|
    ensures ActiveChildren(activeStep, items, from) ==
      if from <= activeStep < |items| then [items[activeStep].children] else []
    decreases |items| - from
  {
    if from < |items| {
      ActiveChildrenFrom(activeStep, items, from + 1);
    }
  }

  /** The content area shows exactly the active child below completion,
      only the completion message at or past it, and nothing for a negative
      step. */
  lemma ContentShown<T>(activeStep: int, items: seq<Item<T>>)
    ensures 0 <= activeStep < |items| ==> Content(activeStep, items) == [Child(items[activeStep].children)]
    ensures activeStep >= |items| ==> Content(activeStep, items) == [AllCompleted]
    ensures activeStep < 0 ==> Content(activeStep, items) == []
  {
    ActiveChildrenFrom(activeStep, items, 0);
  }
}
