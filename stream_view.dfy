/**
 * Non-owning stream views, the three well-known streams and the
 * classification of a view as the legacy or the per-thread default stream
 * (include/rmm/cuda_stream_view.hpp).
 */
module StreamViews {
  import opened Wrappers

  /**
   * A native stream handle (hipStream_t). Its concrete numeric value is
   * opaque: the null handle, the two well-known constants of the runtime
   * (cudaStreamLegacy, hipStreamPerThread) and every other stream, told
   * apart by an identifier. The constructors make the well-known constants
   * distinct from each other and from null.
   */
  datatype Handle = NullHandle | LegacyHandle | PerThreadHandle | Native(id: nat)

  /**
   * The compile-time execution mode: whether CUDA_API_PER_THREAD_DEFAULT_STREAM
   * is defined. Under PerThreadDefaultMode the platform reads the null handle
   * as the per-thread default stream.
   */
  datatype Mode = LegacyDefaultMode | PerThreadDefaultMode

  /** Status code of a native call (hipError_t); zero is success. */
  type Status = int
  const HIP_SUCCESS: Status := 0

  /** The error a failed native call raises (rmm::cuda_error), carrying the status. */
  datatype CudaError = CudaError(status: Status)

  /** RMM_CUDA_TRY: a failed native call becomes an error carrying its status. */
  function CudaTry(status: Status): (r: Outcome<CudaError>)
    ensures r.Pass? <==> status == HIP_SUCCESS
    ensures r.Fail? ==> r.error.status == status
  {
    if status == HIP_SUCCESS then Pass else Fail(CudaError(status))
  }

  /** A copyable, non-owning view of a stream: the handle it wraps and nothing else. */
  datatype StreamView = View(stream: Handle) {

    /** The wrapped handle (also the implicit conversion to hipStream_t). */
    function Value(): (h: Handle)
      ensures View(h) == this
    {
      stream
    }

    /** Whether this view is the per-thread default stream under `mode`. */
    function IsPerThreadDefault(mode: Mode): (r: bool)
      ensures mode == LegacyDefaultMode ==> (r <==> Value() == PerThreadHandle)
      ensures mode == PerThreadDefaultMode ==> (r <==> Value() in {PerThreadHandle, NullHandle})
    {
      match mode
      case PerThreadDefaultMode => Equal(this, CUDA_STREAM_PER_THREAD) || Value() == NullHandle
      case LegacyDefaultMode => Equal(this, CUDA_STREAM_PER_THREAD)
    }

    /** Whether this view is (explicitly) the legacy default stream under `mode`. */
    function IsDefault(mode: Mode): (r: bool)
      ensures mode == LegacyDefaultMode ==> (r <==> Value() in {LegacyHandle, NullHandle})
      ensures mode == PerThreadDefaultMode ==> (r <==> Value() == LegacyHandle)
    {
      match mode
      case PerThreadDefaultMode => Equal(this, CUDA_STREAM_LEGACY)
      case LegacyDefaultMode => Equal(this, CUDA_STREAM_LEGACY) || Value() == NullHandle
    }

    /**
     * Blocking wait on the viewed stream; `status` is what the native
     * synchronize call returns. A failure is raised as an error.
     */
    function Synchronize(status: Status): (r: Outcome<CudaError>)
      ensures r.Pass? <==> status == HIP_SUCCESS
      ensures r.Fail? ==> r.error == CudaError(status)
    {
      CudaTry(status)
    }

    /**
     * Blocking wait that never raises: a failed wait is a fatal assertion,
     * so the only admissible status is success. Nothing is returned.
     */
    method SynchronizeNoThrow(status: Status)
      requires status == HIP_SUCCESS
    {
    }
  }

  /** The default-constructed view: it wraps the null handle. */
  function DefaultView(): (v: StreamView)
    ensures v.Value() == NullHandle
  {
    View(NullHandle)
  }

  /** cuda_stream_default: the view of stream 0. */
  const CUDA_STREAM_DEFAULT: StreamView := DefaultView()

  /** cuda_stream_legacy: the view of the runtime's legacy default stream constant. */
  const CUDA_STREAM_LEGACY: StreamView := View(LegacyHandle)

  /** cuda_stream_per_thread: the view of the runtime's per-thread default stream constant. */
  const CUDA_STREAM_PER_THREAD: StreamView := View(PerThreadHandle)

  /** Equality of views compares the wrapped handles, so equal views are the same value. */
  function Equal(lhs: StreamView, rhs: StreamView): (r: bool)
    ensures r <==> lhs == rhs
  {
    lhs.Value() == rhs.Value()
  }

  /** Inequality of views is the negation of their equality. */
  function NotEqual(lhs: StreamView, rhs: StreamView): (r: bool)
    ensures r <==> lhs.Value() != rhs.Value()
  {
    !Equal(lhs, rhs)
  }

  /** Which queue the platform sends the work given to a handle to. */
  datatype Target = LegacyDefaultStream | PerThreadDefaultStream | OrdinaryStream

  /**
   * The platform's own reading of a handle under a mode, the meaning the
   * classifiers must agree with: the explicit constants always name their
   * stream, and the null handle names the mode's default stream.
   */
  function Resolve(mode: Mode, h: Handle): (t: Target)
    ensures t == OrdinaryStream <==> h.Native?
  {
    match h
    case LegacyHandle => LegacyDefaultStream
    case PerThreadHandle => PerThreadDefaultStream
    case Native(_) => OrdinaryStream
    case NullHandle =>
      match mode
      case LegacyDefaultMode => LegacyDefaultStream
      case PerThreadDefaultMode => PerThreadDefaultStream
  }

  /** A view built from a handle gives that handle back, and a view is determined by its handle. */
  lemma ValueRoundTrip(h: Handle, v: StreamView)
    ensures View(h).Value() == h
    ensures View(v.Value()) == v
  {
  }

  /** The default-constructed view, cuda_stream_default and the view of the null handle are one value. */
  lemma DefaultViewIsNull()
    ensures CUDA_STREAM_DEFAULT == DefaultView() == View(NullHandle)
    ensures Equal(CUDA_STREAM_DEFAULT, DefaultView())
    ensures !CUDA_STREAM_DEFAULT.IsDefault(PerThreadDefaultMode)
    ensures CUDA_STREAM_DEFAULT.IsDefault(LegacyDefaultMode)
  {
  }

  /** View equality is an equivalence and inequality is its exact negation. */
  lemma EqualityLaws(a: StreamView, b: StreamView, c: StreamView)
    ensures Equal(a, a) && !NotEqual(a, a)
    ensures Equal(a, b) == Equal(b, a)
    ensures Equal(a, b) && Equal(b, c) ==> Equal(a, c)
    ensures NotEqual(a, b) == !Equal(a, b)
  {
  }

  /** Both classifiers agree with the platform's reading of the handle, in either mode. */
  lemma ClassificationMatchesPlatform(v: StreamView, mode: Mode)
    ensures v.IsDefault(mode) <==> Resolve(mode, v.Value()) == LegacyDefaultStream
    ensures v.IsPerThreadDefault(mode) <==> Resolve(mode, v.Value()) == PerThreadDefaultStream
  {
  }

  /**
   * The null handle is classified as exactly one kind of default in each
   * mode: legacy under LegacyDefaultMode, per-thread under PerThreadDefaultMode.
   */
  lemma NullIsExactlyOneDefault(mode: Mode)
    ensures DefaultView().IsDefault(mode) != DefaultView().IsPerThreadDefault(mode)
    ensures DefaultView().IsDefault(mode) <==> mode == LegacyDefaultMode
  {
  }

  /** The two modes classify every handle alike except the null handle. */
  lemma ModesDisagreeOnlyOnNull(v: StreamView)
    ensures (v.IsDefault(LegacyDefaultMode) != v.IsDefault(PerThreadDefaultMode)) <==> v.Value() == NullHandle
    ensures (v.IsPerThreadDefault(LegacyDefaultMode) != v.IsPerThreadDefault(PerThreadDefaultMode))
      <==> v.Value() == NullHandle
  {
  }

  /**
   * No view is classified as both defaults, and a view is classified as
   * some default exactly when its handle is null or one of the two constants.
   */
  lemma ClassesAreDisjoint(v: StreamView, mode: Mode)
    ensures !(v.IsDefault(mode) && v.IsPerThreadDefault(mode))
    ensures (v.IsDefault(mode) || v.IsPerThreadDefault(mode)) <==> !v.Value().Native?
  {
  }

  /** The concrete scenarios: the null view and the two constants, both classifiers, both modes. */
  lemma WellKnownStreamsUnderBothModes()
    // LegacyDefaultMode
    ensures DefaultView().IsDefault(LegacyDefaultMode)
    ensures !DefaultView().IsPerThreadDefault(LegacyDefaultMode)
    ensures CUDA_STREAM_LEGACY.IsDefault(LegacyDefaultMode)
    ensures !CUDA_STREAM_LEGACY.IsPerThreadDefault(LegacyDefaultMode)
    ensures CUDA_STREAM_PER_THREAD.IsPerThreadDefault(LegacyDefaultMode)
    ensures !CUDA_STREAM_PER_THREAD.IsDefault(LegacyDefaultMode)
    // PerThreadDefaultMode
    ensures DefaultView().IsPerThreadDefault(PerThreadDefaultMode)
    ensures !DefaultView().IsDefault(PerThreadDefaultMode)
    ensures CUDA_STREAM_LEGACY.IsDefault(PerThreadDefaultMode)
    ensures !CUDA_STREAM_LEGACY.IsPerThreadDefault(PerThreadDefaultMode)
    ensures CUDA_STREAM_PER_THREAD.IsPerThreadDefault(PerThreadDefaultMode)
    ensures !CUDA_STREAM_PER_THREAD.IsDefault(PerThreadDefaultMode)
    ensures NotEqual(DefaultView(), CUDA_STREAM_LEGACY) && NotEqual(DefaultView(), CUDA_STREAM_PER_THREAD)
  {
  }
}
