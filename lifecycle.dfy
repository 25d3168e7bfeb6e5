/** The lifecycle of an object built by signals2's `deconstruct`, stated on values.

    An object of type T lives in the storage of its deleter. Four things can
    happen to it, and each is recorded as an event carrying the object's value
    at the moment it happens:
      Construct       T's constructor ran in the deleter's storage
      PostConstruct   the post-construction hook ran (with its extra arguments)
      PreDestruct     the pre-destruction hook ran
      Destruct        T's destructor ran
    The hooks are explicit function parameters: `pre` stands for the
    `adl_predestruct` found for T (the identity function is the library's
    default, which does nothing), `post` for the `adl_postconstruct` found for T.
*/
module Lifecycle {

  datatype Option<T> = None | Some(value: T)

  datatype Event<T, A> =
    | Construct(obj: T)
    | PostConstruct(obj: T, args: seq<A>)
    | PreDestruct(obj: T)
    | Destruct(obj: T)

  /** The two state bits of a deleter: its `initialized` flag and the object
      its storage holds (None when no object is alive there). */
  datatype DeleterState<T> = DeleterState(initialized: bool, storage: Option<T>)
  {
    ghost predicate Valid() {
      initialized ==> storage.Some?
    }
  }

  /** A new state and the events that produced it. */
  datatype DeleterStep<T, A> = DeleterStep(state: DeleterState<T>, events: seq<Event<T, A>>)

  /** The state of a default-constructed deleter, and equally of a copy:
      the copy constructor never carries the flag over. */
  function NewDeleter<T>(): (d: DeleterState<T>)
    ensures d.Valid() && !d.initialized && d.storage == None
  {
    DeleterState(false, None)
  }

  /** `deconstruct_deleter(const deconstruct_deleter &)`: whatever it copies from. */
  function CopyOf<T>(other: DeleterState<T>): (d: DeleterState<T>)
    ensures d == NewDeleter()
  {
    NewDeleter()
  }

  /** `destroy()`: when an object is alive, run the pre-destruction hook on
      it, then its destructor, and clear the flag; otherwise do nothing. */
  function Destroy<T, A>(d: DeleterState<T>, pre: T -> T): (r: DeleterStep<T, A>)
    requires d.Valid()
    ensures r.state.Valid() && !r.state.initialized
    ensures !d.initialized ==> r == DeleterStep(d, [])
  {
    if d.initialized then
      var obj := d.storage.value;
      var left := pre(obj);
      DeleterStep(DeleterState(false, None), [PreDestruct(obj), Destruct(left)])
    else
      DeleterStep(d, [])
  }

  /** The two entry points of a deleter that both call `destroy()`. */
  datatype DeleterEntry = Invoke | Dispose

  /** The deleter's state and events after any sequence of calls to its
      `operator()` and its destructor. */
  function ReleaseAll<T, A>(d: DeleterState<T>, pre: T -> T, entries: seq<DeleterEntry>): (r: DeleterStep<T, A>)
    requires d.Valid()
    ensures r.state.Valid()
    decreases |entries|
  {
    if entries == [] then DeleterStep(d, [])
    else
      var first := Destroy<T, A>(d, pre);
      var rest := ReleaseAll(first.state, pre, entries[1..]);
      DeleterStep(rest.state, first.events + rest.events)
  }

  /** However often `operator()` and the destructor are called, in whatever
      order, the hooks run once if an object was alive and never otherwise. */
  lemma {:induction false} ReleaseAllOnce<T, A>(d: DeleterState<T>, pre: T -> T, entries: seq<DeleterEntry>)
    requires d.Valid()
    ensures var r := ReleaseAll<T, A>(d, pre, entries);
            (entries == [] || !d.initialized ==> r.state == d) &&
            (entries != [] ==> !r.state.initialized) &&
            (d.initialized && entries != [] ==>
               r.state.storage == None &&
               r.events == [PreDestruct(d.storage.value), Destruct(pre(d.storage.value))]) &&
            (!d.initialized || entries == [] ==> r.events == [])
    decreases |entries|
  {
    if entries != [] {
      var first := Destroy<T, A>(d, pre);
      ReleaseAllOnce<T, A>(first.state, pre, entries[1..]);
    }
  }

  /** Copying a deleter, however initialized it is, yields one whose
      destruction never runs a hook: the object is never destroyed twice. */
  lemma {:induction false} CopyNeverDestroys<T, A>(d: DeleterState<T>, pre: T -> T, entries: seq<DeleterEntry>)
    ensures ReleaseAll<T, A>(CopyOf(d), pre, entries).events == []
  {
    ReleaseAllOnce<T, A>(CopyOf(d), pre, entries);
  }

  /** The state of a `postconstructor_invoker` around a call of `postconstruct`:
      its flag, the object its handle points to, and the events emitted. */
  datatype Invoked<T, A> = Invoked(postconstructed: bool, obj: T, events: seq<Event<T, A>>)

  /** `postconstruct(args...)`: run the hook only if it has not run yet, then
      set the flag. */
  function Postconstruct<T, A>(postconstructed: bool, obj: T, args: seq<A>, post: (T, seq<A>) -> T): (r: Invoked<T, A>)
    ensures r.postconstructed
    ensures postconstructed ==> r == Invoked(true, obj, [])
  {
    if postconstructed then Invoked(true, obj, [])
    else Invoked(true, post(obj, args), [PostConstruct(obj, args)])
  }

  /** The ways a caller can use an invoker: explicit `postconstruct(args...)`
      (`postconstruct()` is the case of no arguments), or the implicit
      conversion to the shared handle. */
  datatype Use<A> = PostconstructCall(args: seq<A>) | Conversion

  /** The arguments with which a use would run the hook; the conversion is
      `postconstruct()`. */
  function ArgsOf<A>(u: Use<A>): (args: seq<A>)
  {
    match u
    case PostconstructCall(args) => args
    case Conversion => []
  }

  /** The invoker's state and the events emitted after a sequence of uses. */
  function UseAll<T, A>(postconstructed: bool, obj: T, uses: seq<Use<A>>, post: (T, seq<A>) -> T): (r: Invoked<T, A>)
    decreases |uses|
  {
    if uses == [] then Invoked(postconstructed, obj, [])
    else
      var first := Postconstruct(postconstructed, obj, ArgsOf(uses[0]), post);
      var rest := UseAll(first.postconstructed, first.obj, uses[1..], post);
      Invoked(rest.postconstructed, rest.obj, first.events + rest.events)
  }

  /** Any number of uses, explicit or by conversion, with or without extra
      arguments, runs the post-construction hook at most once: on the first
      use, with that use's arguments, and only if it had not run before. */
  lemma {:induction false} UseAllOnce<T, A>(postconstructed: bool, obj: T, uses: seq<Use<A>>, post: (T, seq<A>) -> T)
    ensures var r := UseAll(postconstructed, obj, uses, post);
            r.postconstructed == (postconstructed || uses != []) &&
            (postconstructed || uses == [] ==> r.obj == obj && r.events == []) &&
            (!postconstructed && uses != [] ==>
               r.obj == post(obj, ArgsOf(uses[0])) &&
               r.events == [PostConstruct(obj, ArgsOf(uses[0]))])
    decreases |uses|
  {
    if uses != [] {
      var first := Postconstruct(postconstructed, obj, ArgsOf(uses[0]), post);
      UseAllOnce(first.postconstructed, first.obj, uses[1..], post);
    }
  }

  /** Converting to the shared handle after an explicit `postconstruct(args...)`
      does not run the hook again. */
  lemma {:induction false} ConversionAfterExplicit<T, A>(obj: T, args: seq<A>, post: (T, seq<A>) -> T)
    ensures UseAll(false, obj, [PostconstructCall(args), Conversion], post).events == [PostConstruct(obj, args)]
  {
    UseAllOnce(false, obj, [PostconstructCall(args), Conversion], post);
  }

  /** What `deconstruct` leaves behind in the deleter: an initialized deleter
      holding the constructed object when T's constructor returned (`ctor` is
      Some of the value it built), and an untouched one when it threw. */
  function Deconstructed<T, A>(ctor: Option<T>): (r: DeleterStep<T, A>)
    ensures r.state.Valid()
  {
    match ctor
    case None => DeleterStep(NewDeleter(), [])
    case Some(obj) => DeleterStep(DeleterState(true, Some(obj)), [Construct(obj)])
  }

  /** The whole history of an object used through the one invoker
      `deconstruct` returned (no copies of it): `deconstruct`, then a sequence
      of uses of that invoker while the handle is alive, then the calls that
      the handle's release makes into the deleter. A failed construction hands
      out nothing, so no use and no release follows it. */
  function Lifetime<T, A>(ctor: Option<T>, pre: T -> T, post: (T, seq<A>) -> T,
                          uses: seq<Use<A>>, entries: seq<DeleterEntry>): (tr: seq<Event<T, A>>)
  {
    match ctor
    case None => Deconstructed<T, A>(ctor).events
    case Some(obj) =>
      var built := Deconstructed<T, A>(ctor);
      var used := UseAll(false, obj, uses, post);
      var released := ReleaseAll<T, A>(DeleterState(true, Some(used.obj)), pre, entries);
      built.events + used.events + released.events
  }

  /** The complete shape of an object's history. */
  lemma {:induction false} LifetimeShape<T, A>(ctor: Option<T>, pre: T -> T, post: (T, seq<A>) -> T,
                                               uses: seq<Use<A>>, entries: seq<DeleterEntry>)
    ensures var tr := Lifetime(ctor, pre, post, uses, entries);
            (ctor.None? ==> tr == []) &&
            (ctor.Some? ==>
               var obj := ctor.value;
               var used := if uses == [] then obj else post(obj, ArgsOf(uses[0]));
               tr == [Construct(obj)]
                     + (if uses == [] then [] else [PostConstruct(obj, ArgsOf(uses[0]))])
                     + (if entries == [] then [] else [PreDestruct(used), Destruct(pre(used))]))
  {
    if ctor.Some? {
      var obj := ctor.value;
      UseAllOnce(false, obj, uses, post);
      var used := UseAll(false, obj, uses, post);
      ReleaseAllOnce<T, A>(DeleterState(true, Some(used.obj)), pre, entries);
    }
  }

  /** No event other than the first constructs. */
  ghost predicate ConstructedFirst<T, A>(tr: seq<Event<T, A>>) {
    tr != [] ==> tr[0].Construct? && forall i | 0 < i < |tr| :: !tr[i].Construct?
  }

  /** The post-construction hook runs at most once. */
  ghost predicate PostConstructAtMostOnce<T, A>(tr: seq<Event<T, A>>) {
    forall i, j | 0 <= i < j < |tr| :: !(tr[i].PostConstruct? && tr[j].PostConstruct?)
  }

  /** The pre-destruction hook runs at most once. */
  ghost predicate PreDestructAtMostOnce<T, A>(tr: seq<Event<T, A>>) {
    forall i, j | 0 <= i < j < |tr| :: !(tr[i].PreDestruct? && tr[j].PreDestruct?)
  }

  /** Every pre-destruction is immediately followed by the destructor, applied
      to the object as the hook left it, and every destructor call is
      immediately preceded by a pre-destruction. */
  ghost predicate PreDestructRightBeforeDestruct<T, A>(tr: seq<Event<T, A>>, pre: T -> T) {
    (forall i | 0 <= i < |tr| && tr[i].PreDestruct? :: i + 1 < |tr| && tr[i + 1] == Destruct(pre(tr[i].obj))) &&
    (forall i | 0 <= i < |tr| && tr[i].Destruct? :: 0 < i && tr[i - 1].PreDestruct?)
  }

  /** Post-construction never follows pre-destruction. */
  ghost predicate NoPostConstructAfterPreDestruct<T, A>(tr: seq<Event<T, A>>) {
    forall i, j | 0 <= i < j < |tr| :: !(tr[i].PreDestruct? && tr[j].PostConstruct?)
  }

  ghost predicate HooksInOrder<T, A>(tr: seq<Event<T, A>>, pre: T -> T) {
    ConstructedFirst(tr) && PostConstructAtMostOnce(tr) && PreDestructAtMostOnce(tr) &&
    PreDestructRightBeforeDestruct(tr, pre) && NoPostConstructAfterPreDestruct(tr)
  }

  /** Every history `deconstruct` can produce with a single invoker keeps the
      hooks in order (copies of the invoker each carry their own flag); a failed
      construction fires no hook; once the handle has been used the hook has run,
      and once it has been released pre-destruction and destruction have run. */
  lemma {:induction false} LifetimeHooksInOrder<T, A>(ctor: Option<T>, pre: T -> T, post: (T, seq<A>) -> T,
                                                      uses: seq<Use<A>>, entries: seq<DeleterEntry>)
    ensures var tr := Lifetime(ctor, pre, post, uses, entries);
            HooksInOrder(tr, pre) &&
            (ctor.None? ==> tr == []) &&
            (ctor.Some? && uses != [] ==> exists i | 0 <= i < |tr| :: tr[i].PostConstruct?) &&
            (ctor.Some? && entries != [] ==> exists i | 0 <= i < |tr| :: tr[i].PreDestruct?)
  {
    LifetimeShape(ctor, pre, post, uses, entries);
    var tr := Lifetime(ctor, pre, post, uses, entries);
    if ctor.Some? {
      var obj := ctor.value;
      ShapeInOrder(obj, uses != [], entries != [], if uses == [] then [] else ArgsOf(uses[0]), pre, post, tr);
    }
  }

  /** The shape of LifetimeShape keeps the hooks in order. */
  lemma ShapeInOrder<T, A>(obj: T, used: bool, released: bool, args: seq<A>, pre: T -> T, post: (T, seq<A>) -> T,
                           tr: seq<Event<T, A>>)
    requires var last := if used then post(obj, args) else obj;
             tr == [Construct(obj)]
                   + (if used then [PostConstruct(obj, args)] else [])
                   + (if released then [PreDestruct(last), Destruct(pre(last))] else [])
    ensures HooksInOrder(tr, pre)
    ensures used ==> tr[1].PostConstruct?
    ensures released ==> tr[|tr| - 2].PreDestruct?
  {
    var n := if used then 2 else 1;
    assert |tr| == n + (if released then 2 else 0);
    assert forall i | 0 < i < n :: tr[i].PostConstruct?;
    assert released ==> tr[n].PreDestruct? && tr[n + 1].Destruct?;
  }
}
