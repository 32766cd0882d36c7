/** The webview's volume viewer (media/viewer.js): the initial render
    configuration, the min/max normalization run when a volume arrives, the
    render-style and colormap selection pushed into the shader parameters,
    the placement of the bounding box mesh, and the initial camera. Samples
    and coordinates are exact reals, not 32- or 64-bit floats. */
module Viewer {
  import opened Geometry
  import opened Optional
  import MediaUtils

  // ---------------------------------------------------------------------
  // Render configuration
  // ---------------------------------------------------------------------

  /** The user-editable settings (`volumeConfig`). */
  datatype VolumeConfig = VolumeConfig(
    clim1: real,
    clim2: real,
    renderstyle: string,
    isothreshold: real,
    colormap: string)

  /** The colormap textures the viewer loads. */
  datatype Colormap = Viridis | Gray

  /** Looking a colormap up by key in the texture table. Only `viridis` and
      `gray` can be set as keys; any other key is modelled as finding nothing
      (the object's inherited members are not modelled). */
  function ColormapTexture(key: string): (texture: Option<Colormap>)
    ensures texture.Some? <==> key == "viridis" || key == "gray"
    ensures texture == Some(Viridis) <==> key == "viridis"
    ensures texture == Some(Gray) <==> key == "gray"
  {
    if key == "viridis" then Some(Viridis)
    else if key == "gray" then Some(Gray)
    else None
  }

  /** The shader's integer discriminant: 0 for maximum intensity projection
      (`"mip"`), 1 for every other style string, `"iso"` and unknown ones
      alike. */
  function RenderStyleCode(style: string): (code: int)
    ensures code == 0 || code == 1
    ensures code == 0 <==> style == "mip"
  {
    if style == "mip" then 0 else 1
  }

  /** The configuration a viewer starts with: iso-surface rendering with
      threshold 0.15, the full intensity window [0, 1] and the viridis map. */
  function DefaultConfig(): (cfg: VolumeConfig)
    ensures RenderStyleCode(cfg.renderstyle) == 1 && cfg.renderstyle == "iso"
    ensures ColormapTexture(cfg.colormap) == Some(Viridis)
    ensures cfg.clim1 == 0.0 && cfg.clim2 == 1.0
    ensures 0.0 <= cfg.isothreshold <= 1.0 && cfg.isothreshold == 0.15
  {
    VolumeConfig(0.0, 1.0, "iso", 0.15, "viridis")
  }

  /** Number of samples along each axis of a loaded volume. */
  datatype VolumeSize = VolumeSize(x: int, y: int, z: int)

  function SizeVec(size: VolumeSize): Vec3
  {
    Vec3(size.x as real, size.y as real, size.z as real)
  }

  /** The shader parameters the viewer writes: the intensity window, the
      render-style code, the iso threshold, the colormap texture, the sample
      texture and the volume size. */
  datatype Uniforms = Uniforms(
    clim: (real, real),
    renderstyle: int,
    renderthreshold: real,
    cmdata: Option<Colormap>,
    data: seq<real>,
    size: Vec3)

  /** `updateUniforms`, run every frame: copy the configuration into the
      shader parameters; the sample texture and the size are left alone. */
  function UpdateUniforms(u: Uniforms, cfg: VolumeConfig): (r: Uniforms)
    ensures r.data == u.data && r.size == u.size
    ensures r.renderstyle == 0 <==> cfg.renderstyle == "mip"
    ensures r.cmdata.Some? <==> cfg.colormap in {"viridis", "gray"}
    ensures r.renderstyle == RenderStyleCode(cfg.renderstyle) && r.cmdata == ColormapTexture(cfg.colormap)
    ensures r.clim == (cfg.clim1, cfg.clim2) && r.renderthreshold == cfg.isothreshold
  {
    u.(clim := (cfg.clim1, cfg.clim2),
       renderstyle := RenderStyleCode(cfg.renderstyle),
       renderthreshold := cfg.isothreshold,
       cmdata := ColormapTexture(cfg.colormap))
  }

  /** The parameter writes of the load callback: the sample texture and the
      size, then the same configuration fields the frame update writes,
      repeated in the source rather than shared. */
  function LoadUniforms(u: Uniforms, cfg: VolumeConfig, data: seq<real>, size: VolumeSize): (r: Uniforms)
    ensures r.data == data && r.size == SizeVec(size)
    ensures r.renderstyle == RenderStyleCode(cfg.renderstyle) && r.cmdata == ColormapTexture(cfg.colormap)
    ensures r.clim == (cfg.clim1, cfg.clim2) && r.renderthreshold == cfg.isothreshold
  {
    var withTexture := u.(data := data, size := SizeVec(size));
    withTexture.(clim := (cfg.clim1, cfg.clim2),
                 renderstyle := if cfg.renderstyle == "mip" then 0 else 1,
                 renderthreshold := cfg.isothreshold,
                 cmdata := ColormapTexture(cfg.colormap))
  }

  /** The load-time writes and the per-frame writes agree: the first frame
      after a load changes nothing, whatever the configuration. */
  lemma {:induction false} LoadAgreesWithFrameUpdate(u: Uniforms, cfg: VolumeConfig, data: seq<real>, size: VolumeSize)
    ensures UpdateUniforms(LoadUniforms(u, cfg, data, size), cfg) == LoadUniforms(u, cfg, data, size)
    ensures LoadUniforms(u, cfg, data, size)
      == UpdateUniforms(u.(data := data, size := SizeVec(size)), cfg)
  {
  }

  // ---------------------------------------------------------------------
  // Normalization
  // ---------------------------------------------------------------------

  /** Starting values of the running minimum and maximum (1e20 and -1e20). */
  const MinStart: real := 100000000000000000000.0
  const MaxStart: real := -100000000000000000000.0

  /** The first loop of the load callback: a running minimum and maximum
      over the samples, started from the two sentinels. Every sample lies
      between them; each is a sample or its sentinel; for a non-empty volume
      whose samples lie within the sentinels both are samples. */
  method ScanRange(data: seq<real>) returns (minValue: real, maxValue: real)
    ensures minValue <= MinStart && maxValue >= MaxStart
    ensures forall i :: 0 <= i < |data| ==> minValue <= data[i] <= maxValue
    ensures minValue == MinStart || exists i :: 0 <= i < |data| && data[i] == minValue
    ensures maxValue == MaxStart || exists i :: 0 <= i < |data| && data[i] == maxValue
    ensures |data| > 0 && (forall i :: 0 <= i < |data| ==> MaxStart <= data[i] <= MinStart) ==>
      (exists i :: 0 <= i < |data| && data[i] == minValue) && (exists i :: 0 <= i < |data| && data[i] == maxValue)
  {
    minValue, maxValue := MinStart, MaxStart;
    var i := 0;
    while i < |data|
      invariant 0 <= i <= |data|
      invariant minValue <= MinStart && maxValue >= MaxStart
      invariant forall k :: 0 <= k < i ==> minValue <= data[k] <= maxValue
      invariant minValue == MinStart || exists k :: 0 <= k < i && data[k] == minValue
      invariant maxValue == MaxStart || exists k :: 0 <= k < i && data[k] == maxValue
    {
      var value := data[i];
      minValue := Min(value, minValue);
      maxValue := Max(value, maxValue);
      i := i + 1;
    }
    if |data| > 0 && (forall k :: 0 <= k < |data| ==> MaxStart <= data[k] <= MinStart) {
      assert minValue <= data[0] <= maxValue;
    }
  }

  /** The second loop: every sample, in place, becomes its distance from the
      minimum divided by the range. The source divides without checking the
      range; here a zero range is ruled out by the caller. */
  method Rescale(data: seq<real>, minValue: real, maxValue: real) returns (out: seq<real>)
    requires maxValue - minValue != 0.0
    ensures |out| == |data|
    ensures forall i :: 0 <= i < |data| ==> out[i] == (data[i] - minValue) / (maxValue - minValue)
  {
    var valueRange := maxValue - minValue;
    var samples := new real[|data|](k requires 0 <= k < |data| => data[k]);
    var i := 0;
    while i < samples.Length
      invariant 0 <= i <= samples.Length == |data|
      invariant forall k :: 0 <= k < i ==> samples[k] == (data[k] - minValue) / valueRange
      invariant forall k :: i <= k < samples.Length ==> samples[k] == data[k]
    {
      samples[i] := (samples[i] - minValue) / valueRange;
      i := i + 1;
    }
    out := samples[..];
  }

  /** What normalization produces: rescaled samples with the minimum and
      maximum used, or a zero range, where the source would divide zero by
      zero and fill the volume with NaN. */
  datatype Normalization =
    | Rescaled(samples: seq<real>, minValue: real, maxValue: real)
    | ZeroRange(value: real)

  /** All samples equal one value lying within the sentinels. */
  ghost predicate Constant(data: seq<real>)
  {
    && |data| > 0
    && (forall i :: 0 <= i < |data| ==> data[i] == data[0])
    && MaxStart <= data[0] <= MinStart
  }

  /** The normalization of the load callback: scan, then rescale. The range
      is zero exactly for a constant volume. Otherwise the minimum maps to 0,
      the maximum to 1, everything in between into [0, 1], and the order of
      the samples is kept. */
  method Normalize(data: seq<real>) returns (r: Normalization)
    ensures r.ZeroRange? <==> Constant(data)
    ensures r.ZeroRange? ==> r.value == data[0]
    ensures r.Rescaled? ==> |r.samples| == |data|
    ensures r.Rescaled? ==> r.minValue <= MinStart && r.maxValue >= MaxStart
    ensures r.Rescaled? ==> forall i :: 0 <= i < |data| ==> r.minValue <= data[i] <= r.maxValue
    ensures r.Rescaled? ==> r.minValue == MinStart || exists i :: 0 <= i < |data| && data[i] == r.minValue
    ensures r.Rescaled? ==> r.maxValue == MaxStart || exists i :: 0 <= i < |data| && data[i] == r.maxValue
    ensures r.Rescaled? ==> r.maxValue != r.minValue && forall i :: 0 <= i < |data| ==>
      r.samples[i] == (data[i] - r.minValue) / (r.maxValue - r.minValue)
    ensures r.Rescaled? && |data| > 0 ==> forall i :: 0 <= i < |data| ==>
      && 0.0 <= r.samples[i] <= 1.0
      && (r.samples[i] == 0.0 <==> data[i] == r.minValue)
      && (r.samples[i] == 1.0 <==> data[i] == r.maxValue)
    ensures r.Rescaled? ==> forall i, j :: 0 <= i < |data| && 0 <= j < |data| ==>
      (data[i] <= data[j] <==> r.samples[i] <= r.samples[j])
    ensures r.Rescaled? && |data| > 0 && (forall i :: 0 <= i < |data| ==> MaxStart <= data[i] <= MinStart) ==>
      (exists i :: 0 <= i < |data| && r.samples[i] == 0.0) && (exists i :: 0 <= i < |data| && r.samples[i] == 1.0)
  {
    var minValue, maxValue := ScanRange(data);
    var valueRange := maxValue - minValue;
    if valueRange == 0.0 {
      assert |data| > 0;
      assert minValue <= data[0] <= maxValue;
      r := ZeroRange(data[0]);
      return;
    }
    if |data| > 0 {
      assert minValue <= data[0] <= maxValue;
    }
    assert !Constant(data) by {
      if Constant(data) {
        ConstantRange(data, minValue, maxValue);
      }
    }
    var out := Rescale(data, minValue, maxValue);
    r := Rescaled(out, minValue, maxValue);
    if |data| > 0 {
      forall i | 0 <= i < |data|
        ensures 0.0 <= out[i] <= 1.0
        ensures out[i] == 0.0 <==> data[i] == minValue
        ensures out[i] == 1.0 <==> data[i] == maxValue
      {
        UnitInterval(data[i], minValue, maxValue);
      }
    }
    forall i, j | 0 <= i < |data| && 0 <= j < |data|
      ensures data[i] <= data[j] <==> out[i] <= out[j]
    {
      if |data| > 0 {
        assert minValue <= data[0] <= maxValue;
      }
      DivisionKeepsOrder(data[i] - minValue, data[j] - minValue, valueRange);
    }
  }

  /** A constant volume within the sentinels has equal minimum and maximum. */
  lemma {:induction false} ConstantRange(data: seq<real>, minValue: real, maxValue: real)
    requires Constant(data)
    requires minValue <= MinStart && maxValue >= MaxStart
    requires forall i :: 0 <= i < |data| ==> minValue <= data[i] <= maxValue
    requires minValue == MinStart || exists i :: 0 <= i < |data| && data[i] == minValue
    requires maxValue == MaxStart || exists i :: 0 <= i < |data| && data[i] == maxValue
    ensures minValue == maxValue
  {
  }

  /** The rescaled value of a sample within [lo, hi] lies in [0, 1], is 0
      exactly at lo and 1 exactly at hi. */
  lemma UnitInterval(v: real, lo: real, hi: real)
    requires lo <= v <= hi && lo < hi
    ensures 0.0 <= (v - lo) / (hi - lo) <= 1.0
    ensures (v - lo) / (hi - lo) == 0.0 <==> v == lo
    ensures (v - lo) / (hi - lo) == 1.0 <==> v == hi
  {
    var q := (v - lo) / (hi - lo);
    assert q * (hi - lo) == v - lo;
    var range := hi - lo;
    assert 0.0 / range == 0.0;
    assert range / range == 1.0;
    DivisionKeepsOrder(0.0, v - lo, range);
    DivisionKeepsOrder(v - lo, 0.0, range);
    DivisionKeepsOrder(v - lo, range, range);
    DivisionKeepsOrder(range, v - lo, range);
  }

  /** Dividing by a positive range keeps the order of two values. */
  lemma DivisionKeepsOrder(a: real, b: real, range: real)
    requires range > 0.0
    ensures a <= b <==> a / range <= b / range
  {
    assert (a / range) * range == a && (b / range) * range == b;
    if a / range <= b / range {
      assert (a / range) * range <= (b / range) * range;
    }
  }

  // ---------------------------------------------------------------------
  // Geometry and camera
  // ---------------------------------------------------------------------

  function Origin(): Vec3
  {
    Vec3(0.0, 0.0, 0.0)
  }

  /** A box geometry of the given size, centred at the origin. */
  function BoxGeometry(size: Vec3): (b: Box3)
    ensures MediaUtils.BBoxCenter(b) == Origin()
    ensures MediaUtils.Extent(b) == size
  {
    Box3(Scale(size, -0.5), Scale(size, 0.5))
  }

  /** The volume's mesh: a box of the volume's size moved by half its size
      less half a voxel, so that it spans [-0.5, length - 0.5] on each axis:
      the cells of the voxels centred at 0, 1, ..., length - 1. */
  function VolumeMesh(size: VolumeSize): (mesh: Box3)
    ensures mesh.min == Vec3(-0.5, -0.5, -0.5)
    ensures mesh.max == Vec3(size.x as real - 0.5, size.y as real - 0.5, size.z as real - 0.5)
  {
    var s := SizeVec(size);
    var box := BoxGeometry(s);
    Translate(box, Vec3(s.x / 2.0 - 0.5, s.y / 2.0 - 0.5, s.z / 2.0 - 0.5))
  }

  /** The mesh is centred on the middle voxel position and keeps the
      volume's size. */
  lemma {:induction false} VolumeMeshCentre(size: VolumeSize)
    ensures MediaUtils.BBoxCenter(VolumeMesh(size))
      == Vec3((size.x as real - 1.0) / 2.0, (size.y as real - 1.0) / 2.0, (size.z as real - 1.0) / 2.0)
    ensures MediaUtils.Extent(VolumeMesh(size)) == SizeVec(size)
  {
  }

  /** A camera pose: where it is, what the controls orbit around, and which
      way is up. */
  datatype Camera = Camera(position: Vec3, target: Vec3, up: Vec3)

  /** `initCamera`: the controls orbit the centre of the box [0, size]; the
      camera sits straight above it along +y, one volume height away, with -z
      as up. */
  function InitCamera(size: VolumeSize): (cam: Camera)
    ensures cam.target == MediaUtils.BBoxCenter(Box3(Origin(), SizeVec(size)))
    ensures Sub(cam.position, cam.target) == Vec3(0.0, size.y as real, 0.0)
    ensures cam.up == Vec3(0.0, 0.0, -1.0)
  {
    var w, h, d := size.x as real, size.y as real, size.z as real;
    var target := Vec3(w / 2.0, h / 2.0, d / 2.0);
    var position := Vec3(w / 2.0, h * 1.5, d / 2.0);
    Camera(position, target, Vec3(0.0, 0.0, -1.0))
  }

  /** The orbit target is half a voxel beyond the mesh centre on every axis:
      the camera is placed from the uncorrected box [0, size]. */
  lemma {:induction false} CameraTargetOffsetFromMesh(size: VolumeSize)
    ensures Sub(InitCamera(size).target, MediaUtils.BBoxCenter(VolumeMesh(size))) == Vec3(0.5, 0.5, 0.5)
  {
    VolumeMeshCentre(size);
  }

  // ---------------------------------------------------------------------
  // The load callback
  // ---------------------------------------------------------------------

  /** What a loaded volume leaves in the viewer. */
  datatype Scene = Scene(volumeSize: VolumeSize, uniforms: Uniforms, mesh: Box3, camera: Camera)

  /** A loaded scene with the minimum and maximum used to rescale it, or a
      constant volume. */
  datatype LoadOutcome = Loaded(scene: Scene, minValue: real, maxValue: real) | ConstantVolume(value: real)

  /** The load callback of `addVolume`: normalize the samples, record the
      size, write the shader parameters, place the mesh and the camera. */
  method OnVolumeLoaded(u: Uniforms, cfg: VolumeConfig, data: seq<real>, size: VolumeSize)
    returns (r: LoadOutcome)
    ensures r.ConstantVolume? <==> Constant(data)
    ensures r.ConstantVolume? ==> r.value == data[0]
    ensures r.Loaded? ==> r.scene.volumeSize == size && |r.scene.uniforms.data| == |data|
    ensures r.Loaded? ==> r.minValue <= MinStart && r.maxValue >= MaxStart
    ensures r.Loaded? ==> forall i :: 0 <= i < |data| ==> r.minValue <= data[i] <= r.maxValue
    ensures r.Loaded? ==> r.minValue == MinStart || exists i :: 0 <= i < |data| && data[i] == r.minValue
    ensures r.Loaded? ==> r.maxValue == MaxStart || exists i :: 0 <= i < |data| && data[i] == r.maxValue
    ensures r.Loaded? ==> r.maxValue != r.minValue && forall i :: 0 <= i < |data| ==>
      r.scene.uniforms.data[i] == (data[i] - r.minValue) / (r.maxValue - r.minValue)
    ensures r.Loaded? && |data| > 0 ==> forall i :: 0 <= i < |data| ==>
      && 0.0 <= r.scene.uniforms.data[i] <= 1.0
      && (r.scene.uniforms.data[i] == 0.0 <==> data[i] == r.minValue)
      && (r.scene.uniforms.data[i] == 1.0 <==> data[i] == r.maxValue)
    ensures r.Loaded? ==> forall i, j :: 0 <= i < |data| && 0 <= j < |data| ==>
      (data[i] <= data[j] <==> r.scene.uniforms.data[i] <= r.scene.uniforms.data[j])
    ensures r.Loaded? && |data| > 0 && (forall i :: 0 <= i < |data| ==> MaxStart <= data[i] <= MinStart) ==>
      (exists i :: 0 <= i < |data| && r.scene.uniforms.data[i] == 0.0)
      && (exists i :: 0 <= i < |data| && r.scene.uniforms.data[i] == 1.0)
    ensures r.Loaded? ==> r.scene.uniforms.size == SizeVec(size)
    ensures r.Loaded? ==> r.scene.uniforms.renderstyle == RenderStyleCode(cfg.renderstyle)
    ensures r.Loaded? ==> r.scene.uniforms.cmdata == ColormapTexture(cfg.colormap)
    ensures r.Loaded? ==> r.scene.uniforms.clim == (cfg.clim1, cfg.clim2)
    ensures r.Loaded? ==> r.scene.uniforms.renderthreshold == cfg.isothreshold
    ensures r.Loaded? ==> r.scene.mesh.min == Vec3(-0.5, -0.5, -0.5)
    ensures r.Loaded? ==> r.scene.mesh.max == Vec3(size.x as real - 0.5, size.y as real - 0.5, size.z as real - 0.5)
    ensures r.Loaded? ==> r.scene.camera.target == MediaUtils.BBoxCenter(Box3(Origin(), SizeVec(size)))
    ensures r.Loaded? ==> Sub(r.scene.camera.position, r.scene.camera.target) == Vec3(0.0, size.y as real, 0.0)
    ensures r.Loaded? ==> r.scene.camera.up == Vec3(0.0, 0.0, -1.0)
  {
    var n := Normalize(data);
    match n
    case ZeroRange(value) =>
      r := ConstantVolume(value);
    case Rescaled(samples, minValue, maxValue) =>
      var uniforms := LoadUniforms(u, cfg, samples, size);
      r := Loaded(Scene(size, uniforms, VolumeMesh(size), InitCamera(size)), minValue, maxValue);
  }
}
