/** The viewer's helper functions for file names and bounding boxes
    (media/utils.js): the last path segment, the lower-cased extension, the
    mesh-format table, and the box centre, largest extent and camera
    placement used to frame a mesh. */
module MediaUtils {
  import opened Strings
  import opened Geometry

  /** The text after the last `/` of `url`. The source reverses the string,
      takes the leading run of non-`/` characters, and reverses that run back. */
  function Basename(url: string): (name: string)
    ensures IsLastSegment(url, '/', name)
    ensures '/' !in url ==> name == url
    ensures |url| > 0 && url[|url| - 1] == '/' ==> name == []
  {
    var run := PrefixWithout(Reverse(url), '/');
    var name := Reverse(run);
    BasenameIsLastSegment(url, run);
    name
  }

  lemma {:induction false} BasenameIsLastSegment(url: string, run: string)
    requires run == PrefixWithout(Reverse(url), '/')
    ensures IsLastSegment(url, '/', Reverse(run))
  {
    var rev := Reverse(url);
    ReversedPrefix(url, run);
    if |run| < |url| {
      assert rev[|run|] == '/' && rev[|run|] == url[|url| - |run| - 1];
    }
  }

  /** The text after the last `.` of `url`, lower-cased: the last element of
      `url.split(".")`. With no `.` it is all of `url`. */
  function Extname(url: string): (ext: string)
    ensures |ext| <= |url|
    ensures IsLastSegment(url, '.', url[|url| - |ext|..])
    ensures ext == ToLower(url[|url| - |ext|..])
    ensures '.' !in ext
    ensures '.' !in url ==> ext == ToLower(url)
  {
    var parts := Split(url, '.');
    LastOfSplit(url, '.');
    var ext := ToLower(parts[|parts| - 1]);
    assert forall i :: 0 <= i < |ext| ==> ext[i] != '.' by {
      forall i | 0 <= i < |ext| ensures ext[i] != '.' {
        LowerCharFacts(parts[|parts| - 1][i], '.');
      }
    }
    ext
  }

  /** The extension is determined by the text after the last `.`. */
  lemma {:induction false} ExtnameOfSegment(url: string, seg: string)
    requires IsLastSegment(url, '.', seg)
    ensures Extname(url) == ToLower(seg)
  {
    var ext := Extname(url);
    LastSegmentUnique(url, '.', seg, url[|url| - |ext|..]);
  }

  /** Lower-casing the file name first does not change its extension. */
  lemma {:induction false} ExtnameOfLower(url: string)
    ensures Extname(ToLower(url)) == Extname(url)
  {
    var ext := Extname(url);
    var seg := url[|url| - |ext|..];
    LastSegmentOfLower(url, '.', seg);
    ExtnameOfSegment(ToLower(url), ToLower(seg));
    ToLowerIdempotent(seg);
  }

  /** Whether a file can be shown as a mesh: the point-cloud formats `xyz` and
      `pcd` cannot, every other extension (known or not) can. */
  function IsMeshSupport(fileToLoad: string): (supported: bool)
    ensures !supported <==> Extname(fileToLoad) in {"xyz", "pcd"}
  {
    var ext := Extname(fileToLoad);
    if ext == "stl" then true
    else if ext == "off" then true
    else if ext == "ply" then true
    else if ext == "xyz" then false
    else if ext == "pcd" then false
    else true
  }

  /** Upper- and lower-case spellings of the same name are treated alike. */
  lemma {:induction false} IsMeshSupportIgnoresCase(a: string, b: string)
    requires ToLower(a) == ToLower(b)
    ensures IsMeshSupport(a) == IsMeshSupport(b)
  {
    ExtnameOfLower(a);
    ExtnameOfLower(b);
  }

  /** An upper-case point-cloud extension is refused. */
  lemma {:induction false} UpperCasePointCloudRefused()
    ensures !IsMeshSupport("scan.XYZ")
  {
    var url, seg := "scan.XYZ", "XYZ";
    assert url[4] == '.' && url[5..] == seg;
    assert ToLower(seg) == "xyz" by {
      assert LowerChar('X') == 'x' && LowerChar('Y') == 'y' && LowerChar('Z') == 'z';
    }
    ExtnameOfSegment(url, seg);
  }

  /** An extension missing from the table is accepted. */
  lemma {:induction false} UnknownExtensionAccepted()
    ensures IsMeshSupport("volume.nrrd")
  {
    var url, seg := "volume.nrrd", "nrrd";
    assert url[6] == '.' && url[7..] == seg;
    assert ToLower(seg) == seg by {
      assert LowerChar('n') == 'n' && LowerChar('r') == 'r' && LowerChar('d') == 'd';
    }
    ExtnameOfSegment(url, seg);
  }

  /** Per-axis size of a box. */
  function Extent(b: Box3): Vec3
  {
    Sub(b.max, b.min)
  }

  /** The centre of a bounding box: on each axis equally far from both
      corners, hence inside the box when the box is not inverted. */
  function BBoxCenter(b: Box3): (c: Vec3)
    ensures c.x - b.min.x == b.max.x - c.x
    ensures c.y - b.min.y == b.max.y - c.y
    ensures c.z - b.min.z == b.max.z - c.z
    ensures b.min.x <= b.max.x ==> b.min.x <= c.x <= b.max.x
    ensures b.min.y <= b.max.y ==> b.min.y <= c.y <= b.max.y
    ensures b.min.z <= b.max.z ==> b.min.z <= c.z <= b.max.z
  {
    Vec3((b.max.x + b.min.x) / 2.0, (b.max.y + b.min.y) / 2.0, (b.max.z + b.min.z) / 2.0)
  }

  /** The largest of the three extents of a box. */
  function BBoxMaxExtent(b: Box3): (m: real)
    ensures m >= Extent(b).x && m >= Extent(b).y && m >= Extent(b).z
    ensures m == Extent(b).x || m == Extent(b).y || m == Extent(b).z
  {
    var e := Extent(b);
    Max(e.x, Max(e.y, e.z))
  }

  /** The sign the source gives one axis of the camera offset: +1 for a
      positive half-extent, -1 otherwise (a zero half-extent included). */
  function AxisSign(halfExtent: real): real
  {
    if halfExtent > 0.0 then 1.0 else -1.0
  }

  /** The camera position that frames a box: the centre moved by twice the
      largest half-extent along every axis, towards + on an axis of positive
      extent and towards - on any other axis; the final scaling by 1 leaves
      the vector as it is. */
  function AutoCameraPos(b: Box3): (p: Vec3)
    ensures p.x - BBoxCenter(b).x == (if b.max.x > b.min.x then BBoxMaxExtent(b) else -BBoxMaxExtent(b))
    ensures p.y - BBoxCenter(b).y == (if b.max.y > b.min.y then BBoxMaxExtent(b) else -BBoxMaxExtent(b))
    ensures p.z - BBoxCenter(b).z == (if b.max.z > b.min.z then BBoxMaxExtent(b) else -BBoxMaxExtent(b))
  {
    var cx := (b.max.x - b.min.x) / 2.0;
    var cy := (b.max.y - b.min.y) / 2.0;
    var cz := (b.max.z - b.min.z) / 2.0;
    var d := Max(cx, Max(cy, cz)) * 2.0;
    var signs := Vec3(AxisSign(cx), AxisSign(cy), AxisSign(cz));
    Scale(Add(Scale(signs, d), BBoxCenter(b)), 1.0)
  }

  /** The camera is equally far from the centre along every axis, and that
      distance is the largest extent of the box. */
  lemma {:induction false} AutoCameraEquidistant(b: Box3)
    ensures var p, c := AutoCameraPos(b), BBoxCenter(b);
      && Abs(p.x - c.x) == Abs(BBoxMaxExtent(b))
      && Abs(p.y - c.y) == Abs(BBoxMaxExtent(b))
      && Abs(p.z - c.z) == Abs(BBoxMaxExtent(b))
  {
  }

  /** For a box with positive extent on every axis the camera sits beyond the
      upper corner on every axis, so the whole box is in front of it. */
  lemma {:induction false} AutoCameraOutsideBox(b: Box3)
    requires b.min.x < b.max.x && b.min.y < b.max.y && b.min.z < b.max.z
    ensures var p := AutoCameraPos(b);
      p.x > b.max.x && p.y > b.max.y && p.z > b.max.z
  {
  }

  /** A flat axis (zero extent) gets the negative direction, as the source's
      `> 0` test decides. */
  lemma {:induction false} AutoCameraFlatAxis(b: Box3)
    requires b.min.x == b.max.x
    ensures AutoCameraPos(b).x == BBoxCenter(b).x - BBoxMaxExtent(b)
  {
  }

  /** A 4 x 4 x 4 box at the origin: centre (2,2,2), camera 4 further on
      every axis. */
  lemma {:induction false} AutoCameraExample()
    ensures BBoxCenter(Box3(Vec3(0.0, 0.0, 0.0), Vec3(4.0, 4.0, 4.0))) == Vec3(2.0, 2.0, 2.0)
    ensures AutoCameraPos(Box3(Vec3(0.0, 0.0, 0.0), Vec3(4.0, 4.0, 4.0))) == Vec3(6.0, 6.0, 6.0)
  {
  }
}
