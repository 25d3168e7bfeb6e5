/** The objects of signals2's `deconstruct`: the deleter that owns the storage
    an object is built in, the invoker that runs the post-construction hook on
    first use, and the step sequence that ties the two together. Each method
    states its new state through the value-level functions of `Lifecycle`; the
    properties of those functions are proved there.

    The shared handle is abstract: it names the control block it shares (the
    deleter living in it) and the pointer it hands out. Reference counting is
    not modelled; `Release` stands for what the handle does when its last owner
    goes away. The deleter's ghost `history` records what happened to the
    object in its storage, so the invoker's hook is recorded there too.
*/
module Signals2 {
  import opened Lifecycle

  /** A raw pointer: null, or the address of a deleter's storage. */
  datatype Ptr<T, A> = Null | StorageOf(block: DeconstructDeleter<T, A>)

  /** A shared handle: the control block it shares and the pointer `get()` gives. */
  datatype SharedPtr<T, A> = SharedPtr(owner: DeconstructDeleter<T, A>, get: Ptr<T, A>)

  /** `detail::deconstruct_deleter<T>`: inline storage for one T and a flag
      saying whether an object is alive in it. `pre` is the pre-destruction
      hook found for T. */
  class DeconstructDeleter<T, A> {
    var initialized: bool
    var storage: Option<T>
    ghost var history: seq<Event<T, A>>
    const pre: T -> T

    ghost predicate Valid()
      reads this
    {
      State().Valid()
    }

    function State(): (s: DeleterState<T>)
      reads this
    {
      DeleterState(initialized, storage)
    }

    /** `deconstruct_deleter()`. */
    constructor (pre: T -> T)
      ensures Valid() && State() == NewDeleter() && history == [] && this.pre == pre
    {
      initialized := false;
      storage := None;
      history := [];
      this.pre := pre;
    }

    /** `deconstruct_deleter(const deconstruct_deleter &)`: neither the flag nor
        the storage is copied. */
    constructor Copy(other: DeconstructDeleter<T, A>)
      ensures Valid() && State() == CopyOf(other.State()) && history == [] && pre == other.pre
    {
      initialized := false;
      storage := None;
      history := [];
      pre := other.pre;
    }

    /** `destroy()`. */
    method Destroy()
      requires Valid()
      modifies this
      ensures Valid()
      ensures var r := Lifecycle.Destroy<T, A>(old(State()), pre);
              State() == r.state && history == old(history) + r.events
    {
      if initialized {
        var obj := storage.value;
        var left := pre(obj);   // adl_predestruct(p)
        history := history + [PreDestruct(obj)];
        history := history + [Destruct(left)];   // p->~T()
        storage := None;
        initialized := false;
      }
    }

    /** `~deconstruct_deleter()`. */
    method Dispose()
      requires Valid()
      modifies this
      ensures Valid()
      ensures var r := ReleaseAll<T, A>(old(State()), pre, [DeleterEntry.Dispose]);
              State() == r.state && history == old(history) + r.events
    {
      Destroy();
    }

    /** `operator()(T *)`: the pointer is ignored. */
    method Call(p: Ptr<T, A>)
      requires Valid()
      modifies this
      ensures Valid()
      ensures var r := ReleaseAll<T, A>(old(State()), pre, [Invoke]);
              State() == r.state && history == old(history) + r.events
    {
      Destroy();
    }

    /** `address()`: where the object is built, this deleter's own storage. */
    function Address(): (p: Ptr<T, A>)
      ensures p != Null && p.block == this
    {
      StorageOf(this)
    }

    /** `set_initialized()`. The deleter is consistent afterwards only if an
        object has been built at `Address()`, as `deconstruct` does first. */
    method SetInitialized()
      modifies this
      ensures initialized && storage == old(storage) && history == old(history)
      ensures old(storage).Some? ==> Valid()
    {
      initialized := true;
    }
  }

  /** `new (pv) T(args...)`: T's constructor either returns the object it built
      (`ctor` is Some of it) or throws (`ctor` is None), leaving the storage as
      it was. The storage must not hold a live object. */
  method PlacementNew<T, A>(pv: Ptr<T, A>, ctor: Option<T>) returns (constructed: bool)
    requires pv.StorageOf? && pv.block.Valid() && pv.block.storage == None
    modifies pv.block
    ensures constructed == ctor.Some?
    ensures constructed ==> pv.block.storage == ctor && pv.block.initialized == old(pv.block.initialized) &&
                            pv.block.history == old(pv.block.history) + [Construct(ctor.value)]
    ensures !constructed ==> unchanged(pv.block)
  {
    match ctor
    case None =>
      constructed := false;
    case Some(obj) =>
      pv.block.storage := Some(obj);
      pv.block.history := pv.block.history + [Construct(obj)];
      constructed := true;
  }

  /** What a shared handle does when its last owner goes away: it invokes the
      deleter on the pointer it owns (the null pointer it was created with),
      then destroys the control block and the deleter in it. */
  method Release<T, A>(h: SharedPtr<T, A>)
    requires h.owner.Valid()
    modifies h.owner
    ensures h.owner.Valid()
    ensures var r := ReleaseAll<T, A>(old(h.owner.State()), h.owner.pre, [Invoke, DeleterEntry.Dispose]);
            h.owner.State() == r.state && h.owner.history == old(h.owner.history) + r.events
  {
    h.owner.Call(Null);
    h.owner.Dispose();
    assert [Invoke, DeleterEntry.Dispose][1..] == [DeleterEntry.Dispose];
  }

  /** `postconstructor_invoker<T>`: the shared handle to the new object and a
      flag saying whether the post-construction hook `post` has run. */
  class PostconstructorInvoker<T, A> {
    const sp: SharedPtr<T, A>
    var postconstructed: bool
    const post: (T, seq<A>) -> T

    /** The handle points at its own deleter's storage. */
    ghost predicate Valid()
      reads this, sp.owner
    {
      sp.get == sp.owner.Address() && sp.owner.Valid()
    }

    /** `postconstructor_invoker(const std::shared_ptr<T> &)`. */
    constructor (sp: SharedPtr<T, A>, post: (T, seq<A>) -> T)
      ensures this.sp == sp && !postconstructed && this.post == post
    {
      this.sp := sp;
      postconstructed := false;
      this.post := post;
    }

    /** The implicit copy constructor: it copies the handle and the flag, so a
        copy made before first use runs the hook again on its own first use. */
    constructor Copy(other: PostconstructorInvoker<T, A>)
      ensures sp == other.sp && postconstructed == other.postconstructed && post == other.post
    {
      sp := other.sp;
      postconstructed := other.postconstructed;
      post := other.post;
    }

    /** `postconstruct(args...)`. When the hook is still to run, the object is
        alive: the invoker's own handle keeps it so. */
    method PostConstructWith(args: seq<A>) returns (r: SharedPtr<T, A>)
      requires Valid() && (!postconstructed ==> sp.owner.initialized)
      modifies this, sp.owner
      ensures Valid() && sp.owner.initialized == old(sp.owner.initialized)
      ensures r == sp
      ensures old(postconstructed) ==> postconstructed && unchanged(sp.owner)
      ensures !old(postconstructed) ==>
                var s := Postconstruct(false, old(sp.owner.storage.value), args, post);
                postconstructed == s.postconstructed && sp.owner.storage == Some(s.obj) &&
                sp.owner.history == old(sp.owner.history) + s.events
    {
      if !postconstructed {
        var p := sp.get;
        var obj := p.block.storage.value;
        p.block.storage := Some(post(obj, args));   // adl_postconstruct(_sp, p, args...)
        p.block.history := p.block.history + [Event.PostConstruct(obj, args)];
        postconstructed := true;
      }
      r := sp;
    }

    /** `postconstruct()`. */
    method PostConstruct() returns (r: SharedPtr<T, A>)
      requires Valid() && (!postconstructed ==> sp.owner.initialized)
      modifies this, sp.owner
      ensures Valid() && sp.owner.initialized == old(sp.owner.initialized)
      ensures r == sp
      ensures old(postconstructed) ==> postconstructed && unchanged(sp.owner)
      ensures !old(postconstructed) ==>
                var s := Postconstruct(false, old(sp.owner.storage.value), [], post);
                postconstructed == s.postconstructed && sp.owner.storage == Some(s.obj) &&
                sp.owner.history == old(sp.owner.history) + s.events
    {
      r := PostConstructWith([]);
    }

    /** `operator const std::shared_ptr<T> &()`: the same as `postconstruct()`. */
    method ToSharedPtr() returns (r: SharedPtr<T, A>)
      requires Valid() && (!postconstructed ==> sp.owner.initialized)
      modifies this, sp.owner
      ensures Valid() && sp.owner.initialized == old(sp.owner.initialized)
      ensures r == sp
      ensures old(postconstructed) ==> postconstructed && unchanged(sp.owner)
      ensures !old(postconstructed) ==>
                var s := Postconstruct(false, old(sp.owner.storage.value), ArgsOf<A>(Conversion), post);
                postconstructed == s.postconstructed && sp.owner.storage == Some(s.obj) &&
                sp.owner.history == old(sp.owner.history) + s.events
    {
      r := PostConstruct();
    }
  }

  /** `deconstruct_access`, the one class allowed to build invokers. */
  class DeconstructAccess {

    /** `deconstruct_access::deconstruct<T>(args...)`. `ctor` is the outcome of
        T's constructor on the arguments. On success the invoker holds a handle
        to the object in the deleter's own storage, the deleter is initialized
        and no post-construction hook has run; on failure the deleter was never
        initialized and no hook ran. */
    static method Deconstruct<T, A>(ctor: Option<T>, pre: T -> T, post: (T, seq<A>) -> T)
      returns (r: Option<PostconstructorInvoker<T, A>>, ghost block: DeconstructDeleter<T, A>)
      ensures fresh(block) && block.pre == pre && block.Valid()
      ensures block.State() == Deconstructed<T, A>(ctor).state
      ensures block.history == Deconstructed<T, A>(ctor).events
      ensures r.Some? <==> ctor.Some?
      ensures r.Some? ==> fresh(r.value) && r.value.Valid() && r.value.post == post &&
                          r.value.sp.owner == block && r.value.sp.get == block.Address() &&
                          !r.value.postconstructed
    {
      var temporary := new DeconstructDeleter<T, A>(pre);
      var pd := new DeconstructDeleter<T, A>.Copy(temporary);   // the copy kept in the control block
      temporary.Dispose();   // nothing was built in the temporary
      var pt := SharedPtr(pd, Null);   // pt(static_cast<T*>(0), deleter); get_deleter(pt) is pd
      block := pd;
      var pv := pd.Address();
      var constructed := PlacementNew(pv, ctor);
      if !constructed {
        // the exception unwinds through pt, the only owner
        Release(pt);
        ReleaseAllOnce<T, A>(NewDeleter(), pre, [Invoke, DeleterEntry.Dispose]);
        r := None;
      } else {
        pd.SetInitialized();
        var handle := SharedPtr(pt.owner, pv);   // shares pt's ownership, points at pv
        var invoker := new PostconstructorInvoker(handle, post);
        r := Some(invoker);
      }
    }
  }

  /** The free `deconstruct<T>(args...)`. */
  method Deconstruct<T, A>(ctor: Option<T>, pre: T -> T, post: (T, seq<A>) -> T)
    returns (r: Option<PostconstructorInvoker<T, A>>, ghost block: DeconstructDeleter<T, A>)
    ensures fresh(block) && block.pre == pre && block.Valid()
    ensures block.State() == Deconstructed<T, A>(ctor).state
    ensures block.history == Deconstructed<T, A>(ctor).events
    ensures r.Some? <==> ctor.Some?
    ensures r.Some? ==> fresh(r.value) && r.value.Valid() && r.value.post == post &&
                        r.value.sp.owner == block && r.value.sp.get == block.Address() &&
                        !r.value.postconstructed
  {
    r, block := DeconstructAccess.Deconstruct(ctor, pre, post);
  }

  /** One use of an invoker: an explicit `postconstruct(args...)` or the
      conversion to the shared handle. */
  method UseOnce<T, A>(invoker: PostconstructorInvoker<T, A>, u: Use<A>) returns (h: SharedPtr<T, A>)
    requires invoker.Valid() && invoker.sp.owner.initialized
    modifies invoker, invoker.sp.owner
    ensures invoker.Valid() && invoker.sp.owner.initialized
    ensures h == invoker.sp
    ensures var s := Postconstruct(old(invoker.postconstructed), old(invoker.sp.owner.storage.value), ArgsOf(u), invoker.post);
            invoker.postconstructed == s.postconstructed && invoker.sp.owner.storage == Some(s.obj) &&
            invoker.sp.owner.history == old(invoker.sp.owner.history) + s.events
  {
    match u {
      case PostconstructCall(args) =>
        h := invoker.PostConstructWith(args);
      case Conversion =>
        h := invoker.ToSharedPtr();
    }
  }

  /** A caller's sequence of uses of an invoker, each an explicit
      `postconstruct(args...)` or the conversion to the shared handle. */
  method UseInvoker<T, A>(invoker: PostconstructorInvoker<T, A>, uses: seq<Use<A>>)
    requires invoker.Valid() && invoker.sp.owner.initialized
    modifies invoker, invoker.sp.owner
    ensures invoker.Valid() && invoker.sp.owner.initialized
    ensures var u := UseAll(old(invoker.postconstructed), old(invoker.sp.owner.storage.value), uses, invoker.post);
            invoker.postconstructed == u.postconstructed && invoker.sp.owner.storage == Some(u.obj) &&
            invoker.sp.owner.history == old(invoker.sp.owner.history) + u.events
  {
    var deleter := invoker.sp.owner;
    ghost var used := UseAll(invoker.postconstructed, deleter.storage.value, uses, invoker.post);
    var i := 0;
    while i < |uses|
      invariant 0 <= i <= |uses|
      invariant invoker.Valid() && deleter.initialized
      invariant var rest := UseAll(invoker.postconstructed, deleter.storage.value, uses[i..], invoker.post);
                rest.postconstructed == used.postconstructed && rest.obj == used.obj &&
                deleter.history + rest.events == old(deleter.history) + used.events
    {
      assert uses[i..][1..] == uses[i + 1..];
      ghost var before := deleter.history;
      ghost var first := Postconstruct(invoker.postconstructed, deleter.storage.value, ArgsOf(uses[i]), invoker.post);
      ghost var rest := UseAll(first.postconstructed, first.obj, uses[i + 1..], invoker.post);
      assert UseAll(invoker.postconstructed, deleter.storage.value, uses[i..], invoker.post)
          == Invoked(rest.postconstructed, rest.obj, first.events + rest.events);
      var h := UseOnce(invoker, uses[i]);
      assert deleter.history + rest.events == before + (first.events + rest.events);
      i := i + 1;
    }
  }

  /** One call into a deleter, through its `operator()` or its destructor. */
  method EnterOnce<T, A>(deleter: DeconstructDeleter<T, A>, e: DeleterEntry)
    requires deleter.Valid()
    modifies deleter
    ensures deleter.Valid()
    ensures var r := Lifecycle.Destroy<T, A>(old(deleter.State()), deleter.pre);
            deleter.State() == r.state && deleter.history == old(deleter.history) + r.events
  {
    match e {
      case Invoke =>
        deleter.Call(Null);
      case Dispose =>
        deleter.Dispose();
    }
  }

  /** Any sequence of calls into a deleter, through its `operator()` or its
      destructor. */
  method EnterDeleter<T, A>(deleter: DeconstructDeleter<T, A>, entries: seq<DeleterEntry>)
    requires deleter.Valid()
    modifies deleter
    ensures deleter.Valid()
    ensures var r := ReleaseAll<T, A>(old(deleter.State()), deleter.pre, entries);
            deleter.State() == r.state && deleter.history == old(deleter.history) + r.events
  {
    ghost var released := ReleaseAll<T, A>(deleter.State(), deleter.pre, entries);
    var j := 0;
    while j < |entries|
      invariant 0 <= j <= |entries|
      invariant deleter.Valid()
      invariant var rest := ReleaseAll<T, A>(deleter.State(), deleter.pre, entries[j..]);
                rest.state == released.state &&
                deleter.history + rest.events == old(deleter.history) + released.events
    {
      assert entries[j..][1..] == entries[j + 1..];
      ghost var before := deleter.history;
      ghost var first := Lifecycle.Destroy<T, A>(deleter.State(), deleter.pre);
      ghost var rest := ReleaseAll<T, A>(first.state, deleter.pre, entries[j + 1..]);
      assert ReleaseAll<T, A>(deleter.State(), deleter.pre, entries[j..])
          == DeleterStep(rest.state, first.events + rest.events);
      EnterOnce(deleter, entries[j]);
      assert deleter.history + rest.events == before + (first.events + rest.events);
      j := j + 1;
    }
  }

  /** A whole life on the objects: `deconstruct`, a sequence of uses of the
      invoker while its handle is alive, then any sequence of calls into the
      deleter. The history it leaves is `Lifetime`, whose properties
      `Lifecycle` proves. */
  method RunLifetime<T, A>(ctor: Option<T>, pre: T -> T, post: (T, seq<A>) -> T,
                           uses: seq<Use<A>>, entries: seq<DeleterEntry>)
    returns (ghost trace: seq<Event<T, A>>)
    ensures trace == Lifetime(ctor, pre, post, uses, entries)
  {
    var r, block := Deconstruct(ctor, pre, post);
    if r.Some? {
      var invoker := r.value;
      var deleter := invoker.sp.owner;   // std::get_deleter on the handle
      UseInvoker(invoker, uses);
      EnterDeleter(deleter, entries);
    }
    trace := block.history;
  }

  /** A caller that builds an object, calls `postconstruct(args...)`, then
      converts the invoker to the shared handle, and finally drops the last
      owner: the hook runs once, both calls give the same handle, and
      pre-destruction comes right before destruction. */
  method PostconstructThenConvert<T, A>(obj: T, args: seq<A>, pre: T -> T, post: (T, seq<A>) -> T)
    returns (explicit: SharedPtr<T, A>, converted: SharedPtr<T, A>, ghost trace: seq<Event<T, A>>)
    ensures explicit == converted && explicit.get == explicit.owner.Address()
    ensures trace == [Construct(obj), Event.PostConstruct(obj, args),
                      PreDestruct(post(obj, args)), Destruct(pre(post(obj, args)))]
  {
    var r, block := Deconstruct(Some(obj), pre, post);
    var invoker := r.value;
    explicit := invoker.PostConstructWith(args);
    converted := invoker.ToSharedPtr();
    Release(converted);
    trace := block.history;
  }

  /** Two copies of an invoker made before its first use each carry a clear
      flag, so each runs the hook once, on the same object: the at-most-once
      promise holds per invoker, not per object. */
  method CopyBeforeUse<T, A>(obj: T, args1: seq<A>, args2: seq<A>, pre: T -> T, post: (T, seq<A>) -> T)
    returns (first: SharedPtr<T, A>, second: SharedPtr<T, A>, ghost trace: seq<Event<T, A>>)
    ensures first == second
    ensures trace == [Construct(obj), Event.PostConstruct(obj, args1),
                      Event.PostConstruct(post(obj, args1), args2)]
  {
    var r, block := Deconstruct(Some(obj), pre, post);
    var invoker := r.value;
    var copy := new PostconstructorInvoker<T, A>.Copy(invoker);
    first := invoker.PostConstructWith(args1);
    second := copy.PostConstructWith(args2);
    trace := block.history;
  }
}
