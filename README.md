# Stream identity and ownership in RMM, in Dafny

This project models three small pieces of RMM, the RAPIDS memory manager, as ported to HIP. All three are about the identity and ownership of GPU execution streams and resources:

- `stream_view.dfy` (module `StreamViews`) covers `cuda_stream_view`. It is a non-owning, copyable wrapper around a native stream handle. The module also holds the three well-known views (`cuda_stream_default`, `cuda_stream_legacy`, `cuda_stream_per_thread`), equality and inequality of views, and the classifiers `is_default` and `is_per_thread_default`. The classifiers depend on the compile-time mode. That mode is whether `CUDA_API_PER_THREAD_DEFAULT_STREAM` is defined, and here it is the `Mode` parameter. The handle type is opaque. The null handle and the two runtime constants are distinct constructors, and every other stream is `Native(id)`. The classifiers are proved against `Resolve`, an independent statement of which queue the platform sends a handle's work to.
- `stream.dfy` (module `Streams`) covers `hip_stream`, the move-only owner of one native stream. `HipStream` is a class whose `stream` field is the `unique_ptr`: `Some(h)` while the object is valid, `None` once it has been moved from. The native runtime is a `Runtime` object with ghost state. It records:
  - the set of live streams;
  - the order of create and destroy calls;
  - which `HipStream` owns each live stream.

  The runtime's invariant says that every creation is matched by at most one destruction, that this holds even when a handle is reused, and that every live stream has exactly one owner. The constructor, move construction, move assignment and teardown are methods that maintain this invariant and state the new runtime state exactly. `CreateAndMove`, `TearDown` and `Lifecycle` step through the ownership scenario, and its outcome is verified: two streams are created, one is moved into a third object, the other is move-assigned into it, and all three objects are torn down. Afterwards both streams have been destroyed exactly once.
- `host_memory_resource.dfy` (module `HostMemoryResources`) covers the `host_memory_resource<Derived>` mixin. By default, equality is object identity. Inequality is the negation of whichever equality applies, including equalities against other right-hand types. `get_property` declares `host_accessible` as a fact about the type.

`wrappers.dfy` holds `Option`, `Result` and `Outcome`. These model nullable pointers and thrown errors.

Calls into the native runtime are not modelled as code. Their results become parameters: a `Status` (zero is success) and, for `hipStreamCreate`, the handle it returns. The runtime guarantees that this handle is an ordinary stream that is not currently live. `HipStream.New` takes that guarantee as its precondition, and `FreshNativeExists` proves that the runtime can always meet it.

## Model

| member | source | states |
|---|---|---|
| `StreamViews.CudaTry` | include/rmm/cuda_stream_view.hpp:81 | A native call passes exactly when its status is success; otherwise the error raised carries that status. |
| `StreamViews.StreamView.Value` | include/rmm/cuda_stream_view.hpp:52-62 | `value()` and the conversion to `hipStream_t` return the wrapped handle: a view rebuilt from it is the same view. |
| `StreamViews.ValueRoundTrip` | include/rmm/cuda_stream_view.hpp:47-57 | A view built from handle `h` returns exactly `h`, and a view is determined by its handle. |
| `StreamViews.DefaultView` | include/rmm/cuda_stream_view.hpp:36 | A default-constructed view wraps the null handle. |
| `StreamViews.DefaultViewIsNull` | include/rmm/cuda_stream_view.hpp:97-100 | `cuda_stream_default` is the default-constructed view, i.e. the null handle. It is the legacy default in legacy mode and is not the legacy default in per-thread mode. |
| `StreamViews.StreamView.IsPerThreadDefault` | include/rmm/cuda_stream_view.hpp:117-124 | Legacy mode: true iff the handle is the per-thread constant. Per-thread mode: true iff it is the per-thread constant or null. |
| `StreamViews.StreamView.IsDefault` | include/rmm/cuda_stream_view.hpp:126-136 | Legacy mode: true iff the handle is the legacy constant or null. Per-thread mode: true iff it is the legacy constant. |
| `StreamViews.StreamView.Synchronize` | include/rmm/cuda_stream_view.hpp:74-81 | Synchronizing a view succeeds iff the native wait succeeds; a failure raises an error carrying the status. |
| `StreamViews.Equal` | include/rmm/cuda_stream_view.hpp:138-148 | Two views compare equal iff they are the same view value (the same handle). |
| `StreamViews.NotEqual` | include/rmm/cuda_stream_view.hpp:150-157 | Inequality holds iff the handles differ. |
| `StreamViews.EqualityLaws` | include/rmm/cuda_stream_view.hpp:145-157 | View equality is reflexive, symmetric and transitive, and `!=` is its exact negation. |
| `StreamViews.Resolve` | include/rmm/cuda_stream_view.hpp:117-136 | The platform's reading of a handle, used as the reference for the classifiers: it picks an ordinary stream exactly for handles that are neither null nor a constant. |
| `StreamViews.ClassificationMatchesPlatform` | include/rmm/cuda_stream_view.hpp:117-136 | In either mode, `is_default` holds iff the platform sends the handle's work to the legacy default stream. `is_per_thread_default` holds iff it sends it to the per-thread default stream. |
| `StreamViews.NullIsExactlyOneDefault` | include/rmm/cuda_stream_view.hpp:117-136 | In each mode, the null view is exactly one of the two defaults: legacy iff the mode is the legacy one. |
| `StreamViews.ModesDisagreeOnlyOnNull` | include/rmm/cuda_stream_view.hpp:117-136 | Each classifier gives different answers under the two modes exactly for the null handle. |
| `StreamViews.ClassesAreDisjoint` | include/rmm/cuda_stream_view.hpp:102-136 | No view is both defaults in any mode, and a view is some default iff its handle is null or one of the two constants. |
| `StreamViews.WellKnownStreamsUnderBothModes` | include/rmm/cuda_stream_view.hpp:97-136 | The null view and the two constant views are classified as in the resolution table under both modes, and the null view differs from both constants. |
| `Streams.FreshNativeExists` | include/rmm/cuda_stream.hpp:58-63 | Whatever streams are live, the create call has an ordinary handle available that is not live. |
| `Streams.Runtime.Create` | include/rmm/cuda_stream.hpp:58-63 | A successful native create adds a previously non-live handle to the live set and to the creation log, and records its owner. |
| `Streams.Runtime.Destroy` | include/rmm/cuda_stream.hpp:64-67 | The deleter's native destroy applies only to a live stream. It removes the stream from the live set and from the owners, and appends it to the destruction log. |
| `Streams.DestroyedAtMostOnce` | include/rmm/cuda_stream.hpp:49-67 | Every handle is destroyed at most as often as it was created. A live handle has exactly one creation that no destruction matches yet, and it is an ordinary stream. |
| `Streams.HipStream.New` | include/rmm/cuda_stream.hpp:53-69 | If the create call fails, an error carrying its status results and the runtime is untouched. Otherwise a fresh, valid object owns the new handle, which no live stream held before. |
| `Streams.HipStream.MoveFrom` | include/rmm/cuda_stream.hpp:35-41 | Move construction gives the new object the source's handle (if any) and leaves the source invalid. No stream is created or destroyed. |
| `Streams.HipStream.MoveAssign` | include/rmm/cuda_stream.hpp:42-48 | Move assignment gives the target the source's handle and leaves the source invalid. It destroys the stream the target held before, once, if there was one. Self-assignment changes nothing. |
| `Streams.HipStream.Dispose` | include/rmm/cuda_stream.hpp:49 | Teardown destroys the owned stream exactly once if the object is valid. A moved-from object issues no destroy. |
| `Streams.HipStream.IsValid` | include/rmm/cuda_stream.hpp:71-77 | True iff the object owns a live stream in the runtime, i.e. it has not been moved from. |
| `Streams.HipStream.Value` | include/rmm/cuda_stream.hpp:79-93 | Only for a valid object. Returns the live, ordinary handle that the object owns. |
| `Streams.HipStream.View` | include/rmm/cuda_stream.hpp:95-107 | The view's handle is the owned handle, and taking it changes no ownership. |
| `Streams.HipStream.Synchronize` | include/rmm/cuda_stream.hpp:109-116 | Needs a valid object. It succeeds iff the native wait on the owned stream succeeds, and a failure raises an error carrying the status. |
| `Streams.OwnersHoldDistinctHandles` | include/rmm/cuda_stream.hpp:50-51 | Two distinct valid objects in one runtime never own the same stream. |
| `Streams.OwnedViewIsNotDefault` | include/rmm/cuda_stream.hpp:95-107 | The view of an owned stream is neither default stream in either mode, and it differs from `cuda_stream_default`. |
| `Streams.CreateAndMove` | include/rmm/cuda_stream.hpp:35-48 | After two creations, one move construction and one move assignment, only the second stream is live. The first was destroyed once, by the assignment, and both sources are invalid. |
| `Streams.Lifecycle` | include/rmm/cuda_stream.hpp:35-69 | After two creations, the moves and the teardown of all three objects, no stream is live and both streams were destroyed exactly once, in order. |
| `Streams.TearDown` | include/rmm/cuda_stream.hpp:49 | Tearing down two moved-from objects and one valid one destroys exactly the valid one's stream. |
| `HostMemoryResources.HostMemoryResource.Copy` | include/rmm/mr/host/host_memory_resource.hpp:40 | A copy made with the defaulted copy constructor is a distinct object, so it compares unequal to the original. |
| `HostMemoryResources.HostMemoryResource.HasProperty` | include/rmm/mr/host/host_memory_resource.hpp:77-81 | The mixin declares `host_accessible` and nothing else. The answer is a function of the type alone. |
| `HostMemoryResources.Equal` | include/rmm/mr/host/host_memory_resource.hpp:45-61 | Two resources of the derived type compare equal iff they are the same object. |
| `HostMemoryResources.NotEqual` | include/rmm/mr/host/host_memory_resource.hpp:63-75 | For every right-hand type with an equality, including a partial one that reads the state of either operand, `!=` is exactly the negation of that equality wherever the equality is defined. |
| `HostMemoryResources.EqualityLaws` | include/rmm/mr/host/host_memory_resource.hpp:45-61 | Default equality is reflexive, symmetric and transitive. The synthesized inequality is irreflexive and symmetric. |
| `HostMemoryResources.DistinctObjectsAreUnequal` | include/rmm/mr/host/host_memory_resource.hpp:45-61 | Two distinct objects are never equal under the default identity comparison, and they are unequal under `!=`. |

## Left out

- `cuda_event_timer` in benchmarks/synchronization/synchronization.cpp is not modelled. It consists of native event, device-attribute and memset calls, a floating-point unit conversion, and an external benchmark sink.
- `operator<<` for views is output only.
- The deleted constructors are compile-time restrictions. These are the view constructors from `int` and `nullptr` and the copy operations of `hip_stream`. The model reflects them only by not offering those operations.
- The numeric values of `cudaStreamLegacy` and `hipStreamPerThread` come from the runtime headers, which are not part of this model. They are opaque constructors that are distinct from each other and from null.
- Streams.HipStream.Dispose: a failing native destroy is a fatal assertion in the source, and the model does not capture that case. The native destroy of a live stream is taken to succeed. A torn-down object is left in the same state as a moved-from one, so the model does not forbid using an object after its lifetime has ended.
- Streams.HipStream.MoveAssign: the `std::function` deleter inside the `unique_ptr` is not modelled. Self-move-assignment is taken as a no-op, although a standard library may leave a self-moved deleter empty.
- HostMemoryResources.HostMemoryResource.HasProperty: the model stands for a derived type that adds no `get_property` of its own. A derived type may declare further properties, and the model does not cover those.
- StreamViews.StreamView.SynchronizeNoThrow and Streams.HipStream.SynchronizeNoThrow return nothing and carry only their preconditions: a valid object for the owning stream, and a successful wait, because a failed wait is fatal.
- When the native create call fails, the source leaks the heap cell allocated for the handle. Host-heap cells are not modelled.
- The bodies of the synchronize calls block and are not modelled. Only their status and their precondition (a valid object) are.
- Inside `hip_stream::value()`, `RMM_LOGGING_ASSERT` is checked only in debug builds. The model states it as a precondition for every build.
- The model does not capture that a view of an owned stream becomes dangling once its owner is torn down. Views are plain values here, and a view's validity is not tied to its owner's lifetime.
- The defaulted move operations and the virtual destructor of `host_memory_resource` carry no state and are not modelled separately. Derived types that replace the default equality are covered only through `HostMemoryResources.NotEqual`, which takes the equality as a parameter; that equality may read the state of either operand.
- Thread-safety of submitting work to a shared stream is the caller's concern in the source and is not modelled.
