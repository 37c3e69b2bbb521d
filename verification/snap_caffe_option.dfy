/**
 `getSNAPCaffeOption`: the custom option string handed to the SNAP framework
 to run the Caffe model, on the CPU or on the GPU with a kernel cache under
 the device's external storage. The storage root is a parameter.
 */
module SnapCaffeOption {
  import opened Wrappers

  /** Model format, data type and tensor layouts, common to both targets. */
  const Prefix: string := "ModelFWType:CAFFE,ExecutionDataType:FLOAT32,InputFormat:NHWC,OutputFormat:NCHW,"
  /** The field that selects the CPU. */
  const CpuUnit: string := "ComputingUnit:CPU"
  /** The fields that select the GPU, up to the cache directory's root. */
  const GpuUnit: string := "ComputingUnit:GPU,GpuCacheSource:"
  /** The cache directory below the storage root. */
  const CacheDir: string := "/nnstreamer/"

  /** The target an option string selects. */
  datatype ComputingUnit = Cpu | Gpu(storageRoot: string)

  /**
   `getSNAPCaffeOption(useGPU)` with the external storage root `root` passed
   in: the common prefix, then either the CPU field or the GPU fields naming
   `root + "/nnstreamer/"` as the cache source.
   */
  function CaffeOption(useGpu: bool, root: string): (option: string)
    ensures Prefix <= option
    ensures !useGpu ==> |option| == |Prefix| + |CpuUnit|
    ensures !useGpu ==> option[|Prefix|..] == CpuUnit
    ensures useGpu ==> |option| == |Prefix| + |GpuUnit| + |root| + |CacheDir|
    ensures useGpu ==> option[|Prefix|..|Prefix| + |GpuUnit|] == GpuUnit
    ensures useGpu ==> option[|Prefix| + |GpuUnit|..|option| - |CacheDir|] == root
    ensures useGpu ==> option[|option| - |CacheDir|..] == CacheDir
  {
    if useGpu then
      Prefix + GpuUnit + root + CacheDir
    else
      Prefix + CpuUnit
  }

  /** The target an option built from `useGpu` and `root` stands for. */
  function UnitOf(useGpu: bool, root: string): ComputingUnit {
    if useGpu then Gpu(root) else Cpu
  }

  /**
   Reads back the target from an option string; `None` for a string that
   `CaffeOption` cannot produce.
   */
  function Decode(option: string): (r: Option<ComputingUnit>)
    ensures r == Some(Cpu) ==> forall root :: option == CaffeOption(false, root)
    ensures r.Some? && r.value.Gpu? ==> option == CaffeOption(true, r.value.storageRoot)
  {
    var head := |Prefix|;
    var tail := |GpuUnit| + |CacheDir|;
    if |option| < head || option[..head] != Prefix then
      None
    else if option[head..] == CpuUnit then
      assert option == Prefix + CpuUnit;
      Some(Cpu)
    else if |option| < head + tail
         || option[head..head + |GpuUnit|] != GpuUnit
         || option[|option| - |CacheDir|..] != CacheDir then
      None
    else
      var root := option[head + |GpuUnit|..|option| - |CacheDir|];
      assert option == Prefix + GpuUnit + root + CacheDir;
      Some(Gpu(root))
  }

  /** Decoding recovers the target from every option string, whatever the root. */
  lemma {:induction false} DecodeCaffeOption(useGpu: bool, root: string)
    ensures Decode(CaffeOption(useGpu, root)) == Some(UnitOf(useGpu, root))
  {
    var option := CaffeOption(useGpu, root);
    var head := |Prefix|;
    assert option[..head] == Prefix;
    if useGpu {
      assert |option[head..]| > |CpuUnit|;
      assert option[head..head + |GpuUnit|] == GpuUnit;
      assert option[head + |GpuUnit|..|option| - |CacheDir|] == root;
    } else {
      assert option[head..] == CpuUnit;
    }
  }

  /**
   Distinct requests give distinct strings: the option tells the CPU from
   the GPU, and for the GPU it determines the storage root.
   */
  lemma CaffeOptionInjective(g1: bool, r1: string, g2: bool, r2: string)
    requires CaffeOption(g1, r1) == CaffeOption(g2, r2)
    ensures g1 == g2
    ensures g1 ==> r1 == r2
  {
    DecodeCaffeOption(g1, r1);
    DecodeCaffeOption(g2, r2);
  }

  /** The CPU option does not depend on the storage root. */
  lemma CpuCaffeOptionIgnoresRoot(r1: string, r2: string)
    ensures CaffeOption(false, r1) == CaffeOption(false, r2)
  {
  }
}
