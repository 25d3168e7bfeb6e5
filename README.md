# signals2 `deconstruct`: a verified model

Boost.Signals2's `deconstruct<T>(args...)` builds an object and the shared
handle that owns it in one allocation. It adds two hooks that a type can opt
into:

- a post-construction hook (`adl_postconstruct`), run once on the first use of the
  result, either explicitly through `postconstruct(extra...)` or implicitly by
  converting to `std::shared_ptr<T>`;
- a pre-destruction hook (`adl_predestruct`), run right before the destructor
  when the handle is released.

There are two small state machines:

- `detail::deconstruct_deleter<T>` owns the storage the object is built in and
  an `initialized_` flag. Its `destroy()` runs the pre-destruction hook and the
  destructor only while the flag is set, then clears the flag. Its destructor
  and its `operator()` both call `destroy()`. Its copy constructor does not
  copy the flag.
- `postconstructor_invoker<T>` holds the handle and a `_postconstructed` flag.

`deconstruct_access::deconstruct` ties them together in five steps: create the
handle with a deleter, find the deleter, construct `T` in its storage, mark it
initialized, and return a handle aliasing the object.

The project has two modules.

- `Lifecycle` (lifecycle.dfy) states the behaviour on values. The deleter's
  state is `(initialized, storage)`, with `storage` an `Option<T>`. Each
  operation is a function returning the new state and the events it caused:
  `Construct`, `PostConstruct(args)`, `PreDestruct` and `Destruct`. Each event
  carries the object's value at that moment. The hooks are function
  parameters: `pre: T -> T` and `post: (T, seq<A>) -> T`. The identity function
  stands for the library's default `adl_predestruct`, which does nothing. A
  throwing constructor is `ctor == None`. Lemmas cover any sequence of invoker
  uses and deleter calls, and the whole history of one object (`Lifetime`).
- `Signals2` (signals2.dfy) has the objects. The classes `DeconstructDeleter`
  and `PostconstructorInvoker` have the source's fields, and their methods
  update them in place. `DeconstructAccess.Deconstruct` is the step sequence,
  including the temporary deleter that `std::shared_ptr` copies.
  `PlacementNew` models `new (pv) T(...)`. `Release` models what the handle
  does when its last owner goes away: it calls the deleter, then destroys it.
  A ghost `history` in the deleter logs what happened to the object in its
  storage. The contracts of the methods that run a hook or a sequence of
  calls tie their new state and history to the `Lifecycle` functions; the
  others state the fields they set directly. `RunLifetime` shows that running the objects yields
  exactly `Lifetime`.

The shared handle is a value `SharedPtr(owner, get)`:

- `owner` is the control block, that is, the deleter living in it;
- `get` is the pointer the handle hands out: `Null`, or `StorageOf(d)` (the
  deleter's `address()`).

## Model

| member | source | states |
|---|---|---|
| `Lifecycle.NewDeleter` | include/boost/signals2/deconstruct.hpp:109-111 | a default-constructed deleter is consistent, uninitialized and holds no object |
| `Lifecycle.CopyOf` | include/boost/signals2/deconstruct.hpp:115-117 | a copy is in the state of a default-constructed deleter, whatever it was copied from |
| `Lifecycle.Destroy` | include/boost/signals2/deconstruct.hpp:95-105 | the flag is always clear afterwards; with the flag already clear, nothing happens and no event is emitted |
| `Lifecycle.ReleaseAllOnce` | include/boost/signals2/deconstruct.hpp:95-127 | take any non-empty sequence of destructor and `operator()` calls. On an initialized deleter it emits exactly two events: pre-destruct on the live object, then destruct on the object as the hook left it. The storage ends empty. On an uninitialized deleter it emits nothing and changes nothing. The flag is clear afterwards |
| `Lifecycle.CopyNeverDestroys` | include/boost/signals2/deconstruct.hpp:109-117 | no sequence of calls on a copied deleter ever runs a hook, so copying an initialized deleter never causes a second destruction |
| `Lifecycle.Postconstruct` | include/boost/signals2/deconstruct.hpp:53-72 | the flag is set afterwards in every case; once the hook has run, a further call changes nothing and emits nothing |
| `Lifecycle.UseAllOnce` | include/boost/signals2/deconstruct.hpp:49-72 | any sequence of explicit calls and conversions runs the hook at most once: on the first use, with that use's arguments, and only if it had not run before |
| `Lifecycle.ConversionAfterExplicit` | include/boost/signals2/deconstruct.hpp:49-72 | converting after an explicit `postconstruct(extra...)` does not run the hook again |
| `Lifecycle.LifetimeShape` | include/boost/signals2/deconstruct.hpp:141-175 | for an object used through the one invoker `deconstruct` returned, its history is exactly: `Construct` of the built object; then `PostConstruct` with the first use's arguments, if the invoker was used; then `PreDestruct` of the object as the post hook left it and `Destruct` of it as the pre hook left it, if the deleter was called. A constructor that throws leaves an empty history |
| `Lifecycle.LifetimeHooksInOrder` | include/boost/signals2/deconstruct.hpp:95-175 | for an object used through a single invoker, every history starts with its only `Construct`. Post-construct and pre-destruct each happen at most once. Pre-destruct comes right before destruct, and post-construct never comes after it. Use guarantees the post hook ran; release guarantees destruction ran |
| `Signals2.DeconstructDeleter.constructor` | include/boost/signals2/deconstruct.hpp:109-111 | starts uninitialized, empty, with an empty history |
| `Signals2.DeconstructDeleter.Copy` | include/boost/signals2/deconstruct.hpp:113-117 | the flag and the storage are not carried over; the hook is the same |
| `Signals2.DeconstructDeleter.Destroy` | include/boost/signals2/deconstruct.hpp:95-105 | new state and appended events are those of `Lifecycle.Destroy` |
| `Signals2.DeconstructDeleter.Dispose` | include/boost/signals2/deconstruct.hpp:119-122 | the destructor does what `destroy()` does |
| `Signals2.DeconstructDeleter.Call` | include/boost/signals2/deconstruct.hpp:124-127 | `operator()` ignores its pointer and does what `destroy()` does |
| `Signals2.DeconstructDeleter.Address` | include/boost/signals2/deconstruct.hpp:129-132 | a non-null pointer to this deleter's own storage |
| `Signals2.DeconstructDeleter.SetInitialized` | include/boost/signals2/deconstruct.hpp:134-137 | sets the flag, changes nothing else; the deleter is consistent afterwards when an object was already in its storage |
| `Signals2.PlacementNew` | include/boost/signals2/deconstruct.hpp:171 | a returning constructor puts the object in the storage and logs `Construct`; a throwing one changes nothing |
| `Signals2.Release` | include/boost/signals2/deconstruct.hpp:165 | dropping the last owner calls the deleter's `operator()` and then its destructor |
| `Signals2.PostconstructorInvoker.constructor` | include/boost/signals2/deconstruct.hpp:75-77 | holds exactly the handle it was given, with the flag clear |
| `Signals2.PostconstructorInvoker.Copy` | include/boost/signals2/deconstruct.hpp:78-79 | the implicit copy constructor copies the handle and the flag |
| `Signals2.PostconstructorInvoker.PostConstructWith` | include/boost/signals2/deconstruct.hpp:62-72 | once the hook has run, nothing changes; before that, it is the step `Lifecycle.Postconstruct`. It always returns the stored handle |
| `Signals2.PostconstructorInvoker.PostConstruct` | include/boost/signals2/deconstruct.hpp:53-61 | the same with no extra arguments |
| `Signals2.PostconstructorInvoker.ToSharedPtr` | include/boost/signals2/deconstruct.hpp:49-52 | the same as `postconstruct()`, and returns the stored handle |
| `Signals2.DeconstructAccess.Deconstruct` | include/boost/signals2/deconstruct.hpp:145-175 | on success: the fresh deleter is initialized, holds the object, and has logged one `Construct`; the fresh invoker's flag is clear, and its handle shares that deleter's ownership and points to its `Address()`. On failure: no invoker, and the deleter is uninitialized and empty with no event |
| `Signals2.Deconstruct` | include/boost/signals2/deconstruct.hpp:183-193 | the free function has the same contract |
| `Signals2.UseOnce` | include/boost/signals2/deconstruct.hpp:49-72 | one explicit call or one conversion is the step `Lifecycle.Postconstruct` with that use's arguments, and returns the stored handle |
| `Signals2.EnterOnce` | include/boost/signals2/deconstruct.hpp:119-127 | one call of the destructor or of `operator()` is the step `Lifecycle.Destroy` |
| `Signals2.UseInvoker` | include/boost/signals2/deconstruct.hpp:49-72 | running a sequence of uses on an invoker gives the state and events of `Lifecycle.UseAll` |
| `Signals2.EnterDeleter` | include/boost/signals2/deconstruct.hpp:119-127 | running a sequence of deleter calls gives the state and events of `Lifecycle.ReleaseAll` |
| `Signals2.RunLifetime` | include/boost/signals2/deconstruct.hpp:141-193 | running the objects through construction, uses and deleter calls leaves exactly the history `Lifecycle.Lifetime` |
| `Signals2.PostconstructThenConvert` | include/boost/signals2/deconstruct.hpp:49-72 | explicit `postconstruct(args)`, then conversion, then release: both calls return the same handle, pointing at the deleter's storage, and the history has four events: construct, one post-construct with `args`, pre-destruct, destruct |
| `Signals2.CopyBeforeUse` | include/boost/signals2/deconstruct.hpp:53-79 | two copies of an invoker made before first use each run the hook once on the same object: the history holds two post-constructs, and both calls return the same handle |

## Left out

- include/boost/signals2/signal.hpp and include/boost/signals2/slot.hpp: no logic of their own. The signal engine they pull in (`detail/signal_template.hpp`, slot groups, connections) is not part of this model.
- `std::shared_ptr` internals: reference counts, `get_deleter` and the aliasing constructor. They become the `SharedPtr` value and `Release`. Releasing happens when the model says so, not when a count reaches zero.
- Memory layout: `aligned_storage`, alignment, `reinterpret_cast`, `const_cast` and freeing the single allocation. Storage is an `Option<T>` slot; the address is the deleter's identity.
- Argument-dependent lookup and perfect forwarding: the hooks are function parameters, and the extra arguments are a `seq<A>` of one type.
- The handle passed to the post-construction hook: `adl_postconstruct(_sp, p, args...)` also receives the owning handle, but `post` sees only the object and the arguments. A hook that keeps a copy of the handle (for example to track the object) decides whether the last owner ever goes away; the model does not capture that.
- The zero-argument and variadic overloads of `deconstruct` are one member, because they differ only in how `T` is constructed: `T()` and `T(args...)` are both just the constructor's outcome, `ctor`. The two overloads of `postconstruct` are two methods, but `PostConstruct()` is `PostConstructWith([])`, and in `Lifecycle` both are `PostconstructCall(args)`.
- Hooks that throw: `pre` and `post` are total functions. If `adl_postconstruct` threw, the source would leave `_postconstructed` false; the model does not cover that.
- `Signals2.PostconstructorInvoker.PostConstructWith`: when the hook is still to run, it requires the object to be alive. In the source the invoker's own handle guarantees this; the model has no reference count to derive it from. The same holds for `PostConstruct`, `ToSharedPtr` and `UseInvoker`, and for `UseOnce`, which requires it on every call.
- `Signals2.DeconstructDeleter.Destroy`: it requires `Valid()` (the flag set only with an object in storage). In the source this holds because `set_initialized()` is called only after construction. `Dispose`, `Call`, `Release` and `EnterDeleter` require it too.
- Copies of the invoker: each copy carries its own flag, so copies made before first use each run the post-construction hook (`Signals2.CopyBeforeUse` shows this). `Lifecycle.Lifetime`, `LifetimeShape` and `LifetimeHooksInOrder` describe an object used through one invoker only; their at-most-once promise is per invoker.
- Threads: `deconstruct` is sequential, and concurrent use of one invoker is not modelled.
