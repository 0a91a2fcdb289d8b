/**
 Keys of uploaded files (src/shared/storage.service.ts): what `normalizeKey` accepts stays inside the
 upload directory, and the key of a stored file is read back from its URL.
 */
module UploadKeys {
  import opened Prelude
  import Text

  // Paths and segments.

  function Split(s: string): (r: seq<string>)
    ensures |r| >= 1
  {
    if s == "" then [""]
    else if s[0] == '/' then [""] + Split(s[1..])
    else
      var rest := Split(s[1..]);
      [[s[0]] + rest[0]] + rest[1..]
  }

  function Join(segments: seq<string>): string {
    if segments == [] then ""
    else if |segments| == 1 then segments[0]
    else segments[0] + "/" + Join(segments[1..])
  }

  /** One step of Node's path normalisation: drop "" and ".", let ".." cancel the segment before it. */
  function Step(done: seq<string>, segment: string, allowAboveRoot: bool): seq<string> {
    if segment == "" || segment == "." then done
    else if segment != ".." then done + [segment]
    else if done != [] && done[|done| - 1] != ".." then done[..|done| - 1]
    else if allowAboveRoot then done + [segment]
    else done
  }

  function Resolve(segments: seq<string>, allowAboveRoot: bool): seq<string> {
    if segments == [] then []
    else Step(Resolve(segments[..|segments| - 1], allowAboveRoot), segments[|segments| - 1], allowAboveRoot)
  }

  predicate IsAbsolute(path: string) {
    path != "" && path[0] == '/'
  }

  /** `path.posix.normalize`. */
  function Normalize(path: string): string {
    if path == "" then "."
    else
      var trailing := path[|path| - 1] == '/';
      var body := Join(Resolve(Split(path), !IsAbsolute(path)));
      if body == "" then (if IsAbsolute(path) then "/" else if trailing then "./" else ".")
      else (if IsAbsolute(path) then "/" else "") + body + (if trailing then "/" else "")
  }

  /** `path.join` of two arguments. */
  function JoinPath(dir: string, key: string): string {
    if dir == "" then Normalize(key) else if key == "" then Normalize(dir) else Normalize(dir + "/" + key)
  }

  // What resolving means, segment by segment.

  lemma {:induction false} ResolveFromSame(a: seq<string>, a': seq<string>, b: seq<string>, allowAboveRoot: bool)
    requires Resolve(a, allowAboveRoot) == Resolve(a', allowAboveRoot)
    ensures Resolve(a + b, allowAboveRoot) == Resolve(a' + b, allowAboveRoot)
  {
    if b == [] {
      assert a + b == a && a' + b == a';
    } else {
      var n := |b| - 1;
      assert (a + b)[..|a + b| - 1] == a + b[..n] && (a' + b)[..|a' + b| - 1] == a' + b[..n];
      ResolveFromSame(a, a', b[..n], allowAboveRoot);
    }
  }

  /** A name and the parent step after it cancel; empty and dot segments say nothing. */
  lemma SegmentsCancel(a: seq<string>, name: string, b: seq<string>, allowAboveRoot: bool)
    requires name != "" && name != "." && name != ".."
    ensures Resolve(a + [name, ".."] + b, allowAboveRoot) == Resolve(a + b, allowAboveRoot)
    ensures Resolve(a + ["."] + b, allowAboveRoot) == Resolve(a + b, allowAboveRoot)
    ensures Resolve(a + [""] + b, allowAboveRoot) == Resolve(a + b, allowAboveRoot)
  {
    assert (a + [name, ".."])[..|a| + 1] == a + [name] && (a + [name])[..|a|] == a;
    assert (a + ["."])[..|a|] == a && (a + [""])[..|a|] == a;
    assert Resolve(a + [name], allowAboveRoot) == Resolve(a, allowAboveRoot) + [name];
    ResolveFromSame(a + [name, ".."], a, b, allowAboveRoot);
    ResolveFromSame(a + ["."], a, b, allowAboveRoot);
    ResolveFromSame(a + [""], a, b, allowAboveRoot);
  }

  // The normaliser.

  function LowerAscii(c: char): char {
    if 'A' <= c <= 'Z' then (c as int + 32) as char else c
  }

  predicate StartsWithIgnoringCase(s: string, p: string) {
    |p| <= |s| && forall i :: 0 <= i < |p| ==> LowerAscii(s[i]) == p[i]
  }

  function DropSegment(s: string): string {
    if s != "" && s[0] != '/' then DropSegment(s[1..]) else s
  }

  /** Removes `http://host` or `https://host` from the front. */
  function StripHost(s: string): string {
    var n := if StartsWithIgnoringCase(s, "https://") then 8 else if StartsWithIgnoringCase(s, "http://") then 7 else 0;
    if n > 0 && n < |s| && s[n] != '/' then DropSegment(s[n..]) else s
  }

  function StripSlashes(s: string): string {
    if s != "" && s[0] == '/' then StripSlashes(s[1..]) else s
  }

  function StripFolder(s: string): string {
    var t := if StartsWithIgnoringCase(s, "uploads/") then s[8..] else s;
    if StartsWithIgnoringCase(t, "uploads\\") then t[8..] else t
  }

  function FixSlashes(s: string): string {
    if s == "" then "" else [if s[0] == '\\' then '/' else s[0]] + FixSlashes(s[1..])
  }

  function WithoutPrefix(keyOrUrl: string): string {
    FixSlashes(StripFolder(StripSlashes(StripHost(keyOrUrl))))
  }

  predicate Climbs(path: string) {
    |path| >= 2 && path[0] == '.' && path[1] == '.'
  }

  function NormalizeKey(keyOrUrl: string): string {
    var normalized := Normalize(WithoutPrefix(keyOrUrl));
    if normalized == "." || Climbs(normalized) then "" else normalized
  }

  // Segments of joined and split paths.

  predicate Segment(s: string) {
    '/' !in s
  }

  lemma {:induction false} SplitSegments(s: string)
    ensures forall i :: 0 <= i < |Split(s)| ==> Segment(Split(s)[i])
  {
    if s == "" {
    } else {
      SplitSegments(s[1..]);
    }
  }

  lemma {:induction false} SplitOfSlash(a: string, b: string)
    ensures Split(a + "/" + b) == Split(a) + Split(b)
  {
    if a == "" {
      assert a + "/" + b == "/" + b;
      assert ("/" + b)[1..] == b;
    } else {
      assert (a + "/" + b)[1..] == a[1..] + "/" + b;
      SplitOfSlash(a[1..], b);
    }
  }

  lemma {:induction false} SplitOfSegment(s: string)
    requires Segment(s)
    ensures Split(s) == [s]
  {
    if s == "" {
    } else {
      SplitOfSegment(s[1..]);
      assert [s[0]] + s[1..] == s;
    }
  }

  lemma {:induction false} SplitOfJoin(segments: seq<string>)
    requires segments != [] && forall i :: 0 <= i < |segments| ==> Segment(segments[i])
    ensures Split(Join(segments)) == segments
  {
    SplitOfSegment(segments[0]);
    if |segments| <= 1 {
    } else {
      SplitOfJoin(segments[1..]);
      SplitOfSlash(segments[0], Join(segments[1..]));
    }
  }

  // What resolving leaves.

  predicate Named(s: string) {
    s != "" && s != "." && Segment(s)
  }

  /** Names without ".." or, where climbing is allowed, some ".." first and then names. */
  ghost predicate Resolved(done: seq<string>, allowAboveRoot: bool) {
    && (forall i :: 0 <= i < |done| ==> Named(done[i]))
    && (!allowAboveRoot ==> ".." !in done)
    && (forall i, j :: 0 <= i < j < |done| && done[j] == ".." ==> done[i] == "..")
  }

  lemma StepResolves(done: seq<string>, segment: string, allowAboveRoot: bool)
    requires Resolved(done, allowAboveRoot) && Segment(segment)
    ensures Resolved(Step(done, segment, allowAboveRoot), allowAboveRoot)
  {
    var next := Step(done, segment, allowAboveRoot);
    if next == done + [segment] {
      assert Named(segment);
    }
  }

  lemma {:induction false} ResolveResolves(segments: seq<string>, allowAboveRoot: bool)
    requires forall i :: 0 <= i < |segments| ==> Segment(segments[i])
    ensures Resolved(Resolve(segments, allowAboveRoot), allowAboveRoot)
  {
    if segments == [] {
    } else {
      var n := |segments| - 1;
      ResolveResolves(segments[..n], allowAboveRoot);
      StepResolves(Resolve(segments[..n], allowAboveRoot), segments[n], allowAboveRoot);
    }
  }

  function Names(segments: seq<string>): seq<string> {
    if segments == [] then []
    else
      var n := |segments| - 1;
      Names(segments[..n]) + if segments[n] == "" || segments[n] == "." then [] else [segments[n]]
  }

  /** Segments without ".." are only ever appended. */
  lemma {:induction false} ResolveAppends(a: seq<string>, b: seq<string>, allowAboveRoot: bool)
    requires ".." !in b
    ensures Resolve(a + b, allowAboveRoot) == Resolve(a, allowAboveRoot) + Names(b)
  {
    if b == [] {
      assert a + b == a;
    } else {
      var n := |b| - 1;
      assert (a + b)[..|a + b| - 1] == a + b[..n];
      ResolveAppends(a, b[..n], allowAboveRoot);
    }
  }

  function Decorated(lead: bool, body: string, trail: bool): string {
    (if lead then "/" else "") + body + (if trail then "/" else "")
  }

  /** The empty segment that a slash at the beginning or at the end makes. */
  function Edge(slash: bool): seq<string> {
    if slash then [""] else []
  }

  lemma SplitOfDecorated(lead: bool, body: string, trail: bool)
    ensures Split(Decorated(lead, body, trail))
            == Edge(lead) + Split(body) + Edge(trail)
  {
    var tail := body + if trail then "/" else "";
    if trail {
      SplitOfSlash(body, "");
      assert body + "/" + "" == tail;
    } else {
      assert tail == body;
    }
    if lead {
      SplitOfSlash("", tail);
      assert "" + "/" + tail == Decorated(lead, body, trail);
    } else {
      assert tail == Decorated(lead, body, trail);
    }
  }

  lemma NormalizedSegments(path: string)
    requires path != "" && Resolve(Split(path), !IsAbsolute(path)) != []
    ensures var done := Resolve(Split(path), !IsAbsolute(path));
            && Normalize(path) == Decorated(IsAbsolute(path), Join(done), path[|path| - 1] == '/')
            && Split(Join(done)) == done && Resolved(done, !IsAbsolute(path))
  {
    var done := Resolve(Split(path), !IsAbsolute(path));
    SplitSegments(path);
    ResolveResolves(Split(path), !IsAbsolute(path));
    SplitOfJoin(done);
    assert Split("") == [""];
  }

  lemma FirstSegmentLeads(segments: seq<string>, trail: bool)
    requires segments != [] && segments[0] == ".."
    ensures Climbs(Decorated(false, Join(segments), trail))
  {
  }

  lemma NothingLeft(path: string)
    requires path != "" && Resolve(Split(path), !IsAbsolute(path)) == []
    ensures ".." !in Split(Normalize(path))
  {
    SplitOfDecorated(true, "", false);
    SplitOfDecorated(false, ".", true);
    SplitOfSegment(".");
  }

  lemma SomethingLeft(path: string)
    requires path != "" && Resolve(Split(path), !IsAbsolute(path)) != [] && !Climbs(Normalize(path))
    ensures ".." !in Split(Normalize(path))
  {
    var done := Resolve(Split(path), !IsAbsolute(path));
    var trail := path[|path| - 1] == '/';
    NormalizedSegments(path);
    SplitOfDecorated(IsAbsolute(path), Join(done), trail);
    if !IsAbsolute(path) && done[0] == ".." {
      FirstSegmentLeads(done, trail);
    }
    assert ".." !in done;
  }

  /** A key that is not refused has no ".." segment. */
  lemma KeysDoNotClimb(keyOrUrl: string)
    ensures NormalizeKey(keyOrUrl) != "" ==> ".." !in Split(NormalizeKey(keyOrUrl))
  {
    var path := WithoutPrefix(keyOrUrl);
    if NormalizeKey(keyOrUrl) != "" {
      assert path != "";
      if Resolve(Split(path), !IsAbsolute(path)) == [] {
        NothingLeft(path);
      } else {
        SomethingLeft(path);
      }
    }
  }

  ghost function Folder(dir: string): seq<string> {
    Resolve(Split(dir), !IsAbsolute(dir))
  }

  /**
   For every input, the file that `deleteFile` addresses lies in the upload directory: its path is the
   directory's own, followed by names only.
   */
  lemma DeletionStaysInside(dir: string, keyOrUrl: string)
    requires dir != ""
    ensures var key := NormalizeKey(keyOrUrl);
            key != "" ==>
              && Folder(dir + "/" + key) == Folder(dir) + Names(Split(key))
              && ".." !in Names(Split(key))
              && JoinPath(dir, key) == Normalize(dir + "/" + key)
  {
    var key := NormalizeKey(keyOrUrl);
    if key != "" {
      KeysDoNotClimb(keyOrUrl);
      SplitOfSlash(dir, key);
      assert IsAbsolute(dir + "/" + key) <==> IsAbsolute(dir);
      ResolveAppends(Split(dir), Split(key), !IsAbsolute(dir));
      NamesAreMembers(Split(key));
    }
  }

  lemma {:induction false} NamesAreMembers(segments: seq<string>)
    ensures forall s :: s in Names(segments) ==> s in segments
  {
    if segments == [] {
    } else {
      var n := |segments| - 1;
      NamesAreMembers(segments[..n]);
      assert forall s :: s in segments[..n] ==> s in segments;
    }
  }

  // The uploader.

  /** The key `uploadToLocal` gives a file: folder, generated id, extension. */
  function UploadKey(folder: string, id: string, ext: string): string {
    FixSlashes((if folder == "" then "" else folder + "/") + id + ext)
  }

  function UploadUrl(key: string): string {
    "/uploads/" + key
  }

  /** A name that means the same on every platform and does not begin with a dot. */
  predicate SafeName(s: string) {
    s != "" && s[0] != '.' && '/' !in s && '\\' !in s
  }

  lemma {:induction false} FixSlashesKeeps(s: string)
    requires '\\' !in s
    ensures FixSlashes(s) == s
  {
    if s == "" {
    } else {
      FixSlashesKeeps(s[1..]);
    }
  }

  lemma PlainKeyIsNormal(key: string)
    requires key != "" && key[|key| - 1] != '/' && key[0] != '/'
    requires forall i :: 0 <= i < |Split(key)| ==> SafeName(Split(key)[i])
    ensures Normalize(key) == key
  {
    ResolveKeepsSafeNames(Split(key));
    JoinOfSplit(key);
  }

  lemma ResolveKeepsSafeNames(segments: seq<string>)
    requires forall i :: 0 <= i < |segments| ==> SafeName(segments[i])
    ensures Resolve(segments, true) == segments
  {
    ResolveIsNames(segments, true);
    NamesOfSafeNames(segments);
  }

  lemma {:induction false} NamesOfSafeNames(segments: seq<string>)
    requires forall i :: 0 <= i < |segments| ==> SafeName(segments[i])
    ensures Names(segments) == segments
  {
    if segments == [] {
    } else {
      var n := |segments| - 1;
      NamesOfSafeNames(segments[..n]);
      assert SafeName(segments[n]);
      assert segments[..n] + [segments[n]] == segments;
    }
  }

  lemma JoinPrepends(c: char, segments: seq<string>)
    requires segments != []
    ensures Join([[c] + segments[0]] + segments[1..]) == [c] + Join(segments)
  {
    var longer := [[c] + segments[0]] + segments[1..];
    if |segments| > 1 {
      assert longer[1..] == segments[1..] && longer[0] == [c] + segments[0];
      Regroup([c], segments[0], "/", Join(segments[1..]));
    }
  }

  lemma JoinStartsAfresh(segments: seq<string>)
    requires segments != []
    ensures Join([""] + segments) == "/" + Join(segments)
  {
    assert ([""] + segments)[1..] == segments;
    assert "" + "/" + Join(segments) == "/" + Join(segments);
  }

  lemma {:induction false} JoinOfSplit(s: string)
    ensures Join(Split(s)) == s
  {
    if s == "" {
    } else {
      var rest := Split(s[1..]);
      JoinOfSplit(s[1..]);
      JoinPrepends(s[0], rest);
      JoinStartsAfresh(rest);
      assert s == [s[0]] + s[1..];
    }
  }

  lemma UrlPrefixIsStripped(key: string)
    requires key != "" && '\\' !in key
    ensures WithoutPrefix(UploadUrl(key)) == key
  {
    var url := UploadUrl(key);
    assert url[0] == '/';
    assert StripHost(url) == url;
    assert url[1..] == "uploads/" + key;
    assert url[1..][0] == 'u';
    assert StripSlashes(url) == "uploads/" + key;
    FolderIsStripped(key);
    FixSlashesKeeps(key);
  }

  lemma NotAUrl(key: string)
    requires key != "" && key[0] == 'u'
    ensures StripSlashes(StripHost(key)) == key
  {
    assert !StartsWithIgnoringCase(key, "http://") by { assert LowerAscii(key[0]) != "http://"[0]; }
    assert !StartsWithIgnoringCase(key, "https://") by { assert LowerAscii(key[0]) != "https://"[0]; }
  }

  lemma FolderIsStripped(name: string)
    requires name != "" && '\\' !in name
    ensures StripFolder("uploads/" + name) == name
  {
    assert StartsWithIgnoringCase("uploads/" + name, "uploads/");
    assert ("uploads/" + name)[8..] == name;
    assert !StartsWithIgnoringCase(name, "uploads\\") by {
      if |name| >= 8 {
        assert name[7] != '\\';
        assert "uploads\\"[7] == '\\';
      }
    }
  }

  lemma KeyLosesFolder(name: string)
    requires SafeName(name)
    ensures NormalizeKey("uploads/" + name) == name
  {
    NotAUrl("uploads/" + name);
    FolderIsStripped(name);
    FixSlashesKeeps(name);
    SplitOfSegment(name);
    PlainKeyIsNormal(name);
  }

  // When normalising again changes nothing.

  lemma {:induction false} FixSlashesCleans(s: string)
    ensures '\\' !in FixSlashes(s)
  {
    if s == "" {
    } else {
      FixSlashesCleans(s[1..]);
    }
  }

  ghost predicate Free(segments: seq<string>) {
    forall i :: 0 <= i < |segments| ==> '\\' !in segments[i]
  }

  lemma {:induction false} SplitFree(s: string)
    requires '\\' !in s
    ensures Free(Split(s))
  {
    if s == "" {
    } else {
      SplitFree(s[1..]);
    }
  }

  lemma {:induction false} ResolveFree(segments: seq<string>, allowAboveRoot: bool)
    requires Free(segments)
    ensures Free(Resolve(segments, allowAboveRoot))
  {
    if segments == [] {
    } else {
      ResolveFree(segments[..|segments| - 1], allowAboveRoot);
    }
  }

  lemma {:induction false} JoinFree(segments: seq<string>)
    requires Free(segments)
    ensures '\\' !in Join(segments)
  {
    if |segments| <= 1 {
    } else {
      JoinFree(segments[1..]);
    }
  }

  /** What a key that was not refused looks like. */
  ghost predicate NormalForm(k: string, lead: bool, done: seq<string>, trail: bool) {
    && done != [] && Resolved(done, false)
    && k == Decorated(lead, Join(done), trail) && '\\' !in k
    && Split(k) == Edge(lead) + done + Edge(trail)
  }

  lemma KeyShape(keyOrUrl: string) returns (lead: bool, done: seq<string>, trail: bool)
    ensures var k := NormalizeKey(keyOrUrl); k == "" || k == "/" || k == "./" || NormalForm(k, lead, done, trail)
  {
    var path := WithoutPrefix(keyOrUrl);
    lead, trail := IsAbsolute(path), path != "" && path[|path| - 1] == '/';
    done := Resolve(Split(path), !lead);
    if NormalizeKey(keyOrUrl) != "" && done != [] {
      KeysDoNotClimb(keyOrUrl);
      FixSlashesCleans(StripFolder(StripSlashes(StripHost(keyOrUrl))));
      NormalizedShape(path, lead, done, trail);
    }
  }

  lemma NormalizedShape(path: string, lead: bool, done: seq<string>, trail: bool)
    requires path != "" && lead == IsAbsolute(path) && trail == (path[|path| - 1] == '/')
    requires done == Resolve(Split(path), !lead) && done != []
    requires '\\' !in path && ".." !in Split(Normalize(path))
    ensures NormalForm(Normalize(path), lead, done, trail)
  {
    NormalizedSegments(path);
    SplitOfDecorated(lead, Join(done), trail);
    assert forall x :: x in done ==> x in Edge(lead) + done + Edge(trail);
    SplitFree(path);
    ResolveFree(Split(path), !lead);
    JoinFree(done);
    FreeDecorated(lead, Join(done), trail);
  }

  lemma FreeDecorated(lead: bool, body: string, trail: bool)
    requires '\\' !in body
    ensures '\\' !in Decorated(lead, body, trail)
  {
  }

  lemma {:induction false} NamesOfNamed(segments: seq<string>)
    requires forall i :: 0 <= i < |segments| ==> Named(segments[i])
    ensures Names(segments) == segments
  {
    if segments == [] {
    } else {
      var n := |segments| - 1;
      NamesOfNamed(segments[..n]);
      assert Named(segments[n]) && segments[..n] + [segments[n]] == segments;
    }
  }

  lemma NoSlashIn(s: string, i: nat)
    requires Segment(s) && i < |s|
    ensures s[i] != '/'
  {
  }

  /** Joined names neither begin nor end with a slash. */
  lemma {:induction false} EndsOfJoin(done: seq<string>)
    requires done != [] && forall i :: 0 <= i < |done| ==> Named(done[i])
    ensures var j := Join(done); j != "" && j[0] != '/' && j[|j| - 1] != '/'
  {
    assert Named(done[0]);
    NoSlashIn(done[0], 0);
    NoSlashIn(done[0], |done[0]| - 1);
    if |done| == 1 {
    } else {
      EndsOfJoin(done[1..]);
      assert Join(done) == done[0] + "/" + Join(done[1..]);
    }
  }

  lemma NormalFormResolves(k: string, lead: bool, done: seq<string>, trail: bool)
    requires NormalForm(k, lead, done, trail)
    ensures Resolve(Split(k), !lead) == done
  {
    assert ".." !in Edge(lead) + done + Edge(trail);
    ResolveIsNames(Split(k), !lead);
    NamesOfSegments(lead, done, trail);
  }

  lemma ResolveIsNames(segments: seq<string>, allowAboveRoot: bool)
    requires ".." !in segments
    ensures Resolve(segments, allowAboveRoot) == Names(segments)
  {
    ResolveAppends([], segments, allowAboveRoot);
    assert [] + segments == segments;
  }

  lemma NamesOfEdge(slash: bool)
    ensures Names(Edge(slash)) == []
  {
    assert [""][..0] == [];
  }

  lemma NamesOfSegments(lead: bool, done: seq<string>, trail: bool)
    requires forall i :: 0 <= i < |done| ==> Named(done[i])
    ensures Names(Edge(lead) + done + Edge(trail)) == done
  {
    NamesConcat(Edge(lead) + done, Edge(trail));
    NamesConcat(Edge(lead), done);
    NamesOfEdge(lead);
    NamesOfEdge(trail);
    NamesOfNamed(done);
  }

  lemma {:induction false} NamesConcat(a: seq<string>, b: seq<string>)
    ensures Names(a + b) == Names(a) + Names(b)
  {
    if b == [] {
      assert a + b == a;
    } else {
      var n := |b| - 1;
      assert (a + b)[..|a + b| - 1] == a + b[..n];
      NamesConcat(a, b[..n]);
    }
  }

  /** Paths in normal form stay as they are. */
  lemma NormalFormStays(k: string, lead: bool, done: seq<string>, trail: bool)
    requires NormalForm(k, lead, done, trail)
    ensures Normalize(k) == k && (IsAbsolute(k) <==> lead)
  {
    EndsOfJoin(done);
    NormalFormResolves(k, lead, done, trail);
  }

  /** A double slash makes an empty segment that is neither the first nor the last. */
  lemma DoubleSlashSplits(k: string, i: nat) returns (j: nat)
    requires i + 1 < |k| && k[i] == '/' && k[i + 1] == '/'
    ensures 1 <= j < |Split(k)| - 1 && Split(k)[j] == ""
  {
    var a, b := k[..i], k[i + 2..];
    assert k == a + "/" + ("/" + b);
    assert "" + "/" + b == "/" + b;
    SplitOfSlash(a, "/" + b);
    SplitOfSlash("", b);
    assert Split(k) == Split(a) + ([""] + Split(b));
    j := |Split(a)|;
  }

  lemma InnerSegmentsNamed(k: string, lead: bool, done: seq<string>, trail: bool)
    requires NormalForm(k, lead, done, trail)
    ensures forall j :: 1 <= j < |Split(k)| - 1 ==> Split(k)[j] != ""
  {
    forall j | 1 <= j < |Split(k)| - 1 ensures Split(k)[j] != "" {
      var i := if lead then j - 1 else j;
      assert Split(k)[j] == done[i] && Named(done[i]);
    }
  }

  lemma KeysHaveNoHost(k: string, lead: bool, done: seq<string>, trail: bool)
    requires NormalForm(k, lead, done, trail)
    ensures StripHost(k) == k
  {
    InnerSegmentsNamed(k, lead, done, trail);
    if StartsWithIgnoringCase(k, "http://") {
      HostSlashes(k, "http://", 5);
      var j := DoubleSlashSplits(k, 5);
    }
    if StartsWithIgnoringCase(k, "https://") {
      HostSlashes(k, "https://", 6);
      var j := DoubleSlashSplits(k, 6);
    }
  }

  lemma HostSlashes(k: string, p: string, i: nat)
    requires StartsWithIgnoringCase(k, p) && i + 1 < |p| && p[i] == '/' && p[i + 1] == '/'
    ensures i + 1 < |k| && k[i] == '/' && k[i + 1] == '/'
  {
    assert LowerAscii(k[i]) == p[i] && LowerAscii(k[i + 1]) == p[i + 1];
  }

  lemma WithoutLead(k: string, lead: bool, done: seq<string>, trail: bool)
    requires NormalForm(k, lead, done, trail)
    ensures NormalForm(StripSlashes(k), false, done, trail) && |StripSlashes(k)| + (if lead then 1 else 0) == |k|
  {
    var rel := Decorated(false, Join(done), trail);
    EndsOfJoin(done);
    assert k == (if lead then "/" else "") + rel;
    assert lead ==> k[0] == '/' && k[1..] == rel;
    assert forall c :: c in rel ==> c in k;
    SplitOfDecorated(false, Join(done), trail);
    NormalizedDone(done);
  }

  lemma NormalizedDone(done: seq<string>)
    requires done != [] && Resolved(done, false)
    ensures Split(Join(done)) == done
  {
    SplitOfJoin(done);
  }

  lemma UploadsPrefix(k: string, i: nat)
    requires StartsWithIgnoringCase(k, "uploads/") && i < 8
    ensures k[i] == '/' <==> i == 7
  {
    assert LowerAscii(k[i]) == "uploads/"[i];
  }

  /** Taking the folder name away leaves nothing or the normal form of the rest. */
  lemma WithoutFolder(k: string, done: seq<string>, trail: bool)
    requires NormalForm(k, false, done, trail) && StartsWithIgnoringCase(k, "uploads/")
    ensures k[8..] == "" || NormalForm(k[8..], false, done[1..], trail)
  {
    var first := done[0];
    UploadsPrefix(k, 7);
    if |done| == 1 {
      var c := k[7];
      assert !trail ==> c in first;
      assert k == first + "/" + "";
      FolderNameLength(k, first, "");
    } else {
      var rest := Decorated(false, Join(done[1..]), trail);
      assert k == first + "/" + rest;
      FolderNameLength(k, first, rest);
      assert k[8..] == rest && forall c :: c in rest ==> c in k;
      SplitOfDecorated(false, Join(done[1..]), trail);
      NormalizedDone(done[1..]);
    }
  }

  lemma FolderNameLength(k: string, first: string, rest: string)
    requires k == first + "/" + rest && Segment(first) && StartsWithIgnoringCase(k, "uploads/")
    ensures |first| == 7
  {
    UploadsPrefix(k, 7);
    var c := k[7];
    assert k[|first|] == '/';
    assert |first| > 7 ==> c in first;
    if |first| < 8 {
      UploadsPrefix(k, |first|);
    }
  }

  lemma StripFolderOfKey(k: string, done: seq<string>, trail: bool)
    requires NormalForm(k, false, done, trail)
    ensures StripFolder(k) == if StartsWithIgnoringCase(k, "uploads/") then k[8..] else k
  {
    var t := if StartsWithIgnoringCase(k, "uploads/") then k[8..] else k;
    assert !StartsWithIgnoringCase(t, "uploads\\") by {
      if |t| >= 8 {
        assert t[7] in k && LowerAscii(t[7]) != '\\';
        assert "uploads\\"[7] == '\\';
      }
    }
  }

  /** What normalising a key in normal form again makes of it. */
  lemma NormalizingAgain(k: string, lead: bool, done: seq<string>, trail: bool)
    requires NormalForm(k, lead, done, trail) && !Climbs(k)
    ensures NormalizeKey(k) == k <==> !lead && !StartsWithIgnoringCase(k, "uploads/")
  {
    var rel := StripSlashes(k);
    PrefixOfKey(k, lead, done, trail);
    if StartsWithIgnoringCase(rel, "uploads/") {
      FolderGoes(k, rel, done, trail);
    } else {
      NormalFormStays(rel, false, done, trail);
      NotADot(rel, done, trail);
    }
    EndsOfJoin(done);
    assert lead <==> rel != k;
  }

  lemma NotADot(k: string, done: seq<string>, trail: bool)
    requires NormalForm(k, false, done, trail)
    ensures k != "." && k != ""
  {
    EndsOfJoin(done);
    SplitOfSegment(".");
    assert Split(k)[0] == done[0] && Named(done[0]);
  }

  lemma PrefixOfKey(k: string, lead: bool, done: seq<string>, trail: bool)
    requires NormalForm(k, lead, done, trail)
    ensures var rel := StripSlashes(k);
            && NormalForm(rel, false, done, trail) && |rel| + (if lead then 1 else 0) == |k|
            && WithoutPrefix(k) == if StartsWithIgnoringCase(rel, "uploads/") then rel[8..] else rel
  {
    var rel := StripSlashes(k);
    KeysHaveNoHost(k, lead, done, trail);
    WithoutLead(k, lead, done, trail);
    StripFolderOfKey(rel, done, trail);
    var path := StripFolder(rel);
    assert forall c :: c in path ==> c in rel;
    FixSlashesKeeps(path);
  }

  lemma FolderGoes(k: string, rel: string, done: seq<string>, trail: bool)
    requires NormalForm(rel, false, done, trail) && StartsWithIgnoringCase(rel, "uploads/") && |rel| <= |k|
    requires WithoutPrefix(k) == rel[8..]
    ensures NormalizeKey(k) != k
  {
    WithoutFolder(rel, done, trail);
    if rel[8..] != "" {
      NormalFormStays(rel[8..], false, done[1..], trail);
    }
  }

  /**
   A key that was not refused is left as it is by normalising it again exactly when it is relative and does
   not begin with the folder name that URLs begin with.
   */
  lemma NormalizingTwiceIff(keyOrUrl: string)
    ensures var k := NormalizeKey(keyOrUrl);
            k != "" ==> (NormalizeKey(k) == k <==> k[0] != '/' && !StartsWithIgnoringCase(k, "uploads/"))
  {
    var k := NormalizeKey(keyOrUrl);
    var lead, done, trail := KeyShape(keyOrUrl);
    if k == "./" {
      DotSlashStays();
    } else if k == "/" {
      SlashVanishes();
    } else if k != "" {
      EndsOfJoin(done);
      NormalizingAgain(k, lead, done, trail);
    }
  }

  lemma DotSlashStays()
    ensures NormalizeKey("./") == "./"
  {
    FixSlashesKeeps("./");
    SplitOfSlash(".", "");
    SplitOfSegment(".");
    assert "." + "/" + "" == "./";
    assert Split("./") == [".", ""];
    assert [".", ""][..1] == ["."] && ["."][..0] == [];
    assert Resolve(["."], true) == [];
    assert Resolve([".", ""], true) == [];
    assert WithoutPrefix("./") == "./";
  }

  lemma SlashVanishes()
    ensures NormalizeKey("/") == ""
  {
  }

  // The keys the uploader builds.

  /** No segment means anything but itself; an empty one may stand at the end. */
  predicate Clean(segments: seq<string>) {
    forall i :: 0 <= i < |segments| ==>
      segments[i] != "." && segments[i] != ".." && (segments[i] == "" ==> i == |segments| - 1)
  }

  lemma {:induction false} JoinWithTrail(done: seq<string>)
    requires done != []
    ensures Join(done + [""]) == Join(done) + "/"
  {
    if |done| == 1 {
      assert (done + [""])[1..] == [""];
      assert Join(done + [""]) == done[0] + "/" + Join([""]);
    } else {
      JoinWithTrail(done[1..]);
      assert (done + [""])[1..] == done[1..] + [""];
      assert done[0] + "/" + (Join(done[1..]) + "/") == done[0] + "/" + Join(done[1..]) + "/";
    }
  }

  lemma CleanShape(key: string) returns (done: seq<string>, trail: bool)
    requires key != "" && key[0] != '/' && Clean(Split(key))
    ensures done != [] && Split(key) == done + Edge(trail) && Resolved(done, false)
  {
    var segments := Split(key);
    var n := |segments| - 1;
    trail := segments[n] == "";
    done := if trail then segments[..n] else segments;
    FirstSegment(key);
    SplitSegments(key);
  }

  lemma JoinWithEdge(done: seq<string>, trail: bool)
    requires done != []
    ensures Join(done + Edge(trail)) == Decorated(false, Join(done), trail)
  {
    if trail {
      JoinWithTrail(done);
    } else {
      assert done + [] == done;
    }
  }

  lemma CleanIsNormal(key: string)
    requires key != "" && key[0] != '/' && '\\' !in key && Clean(Split(key))
    ensures Normalize(key) == key
  {
    var done, trail := CleanShape(key);
    CleanNormalForm(key, done, trail);
    NormalFormStays(key, false, done, trail);
  }

  lemma CleanNormalForm(key: string, done: seq<string>, trail: bool)
    requires done != [] && Split(key) == done + Edge(trail) && Resolved(done, false) && '\\' !in key
    ensures NormalForm(key, false, done, trail)
  {
    JoinOfSplit(key);
    JoinWithEdge(done, trail);
    assert Edge(false) + done == done;
  }

  lemma FirstSegment(s: string)
    requires s != "" && s[0] != '/'
    ensures Split(s)[0] != "" && Split(s)[0][0] == s[0]
  {
  }

  lemma NormalSplit(key: string, done: seq<string>, trail: bool)
    requires key != "" && key[0] != '/' && Normalize(key) == key
    requires done == Resolve(Split(key), true) && done != [] && trail == (key[|key| - 1] == '/')
    ensures Split(key) == done + Edge(trail) && Resolved(done, true)
  {
    NormalizedSegments(key);
    SplitOfDecorated(false, Join(done), trail);
    assert Edge(false) + done == done;
  }

  lemma EmptyNormalIsDot(key: string)
    requires key != "" && key[0] != '/' && Resolve(Split(key), true) == []
    ensures Normalize(key) != "" && Normalize(key)[0] == '.'
  {
  }

  lemma NormalIsClean(key: string)
    requires key != "" && key[0] != '/' && key[0] != '.' && Normalize(key) == key
    ensures Clean(Split(key))
  {
    var done, trail := Resolve(Split(key), true), key[|key| - 1] == '/';
    if done == [] {
      EmptyNormalIsDot(key);
    } else {
      NormalSplit(key, done, trail);
      FirstSegment(key);
      assert done[0] == Split(key)[0];
      NamesWithoutClimbing(done, trail);
    }
  }

  lemma NamesWithoutClimbing(done: seq<string>, trail: bool)
    requires done != [] && Resolved(done, true) && done[0] != ".."
    ensures Clean(done + Edge(trail))
  {
    var first := done[0];
    assert forall i :: 0 <= i < |done| ==> Named(done[i]) && (done[i] == ".." ==> first == "..");
  }

  lemma KeyComesBackIff(key: string)
    requires key != "" && key[0] != '/' && key[0] != '.' && '\\' !in key
    ensures NormalizeKey(UploadUrl(key)) == key <==> Clean(Split(key))
  {
    UrlPrefixIsStripped(key);
    if Clean(Split(key)) {
      CleanIsNormal(key);
    }
    if Normalize(key) == key {
      NormalIsClean(key);
    }
  }

  /**
   Whatever the extension is, the key of a stored file is what `normalizeKey` makes of its URL exactly when
   no segment of it is special.
   */
  lemma UrlLeadsBackToFileIff(folder: string, id: string, ext: string)
    requires (folder == "" || SafeName(folder)) && SafeName(id)
    ensures var key := UploadKey(folder, id, ext); NormalizeKey(UploadUrl(key)) == key <==> Clean(Split(key))
  {
    var raw := (if folder == "" then "" else folder + "/") + id + ext;
    assert raw[0] == if folder == "" then id[0] else folder[0];
    FixSlashesCleans(raw);
    KeyComesBackIff(UploadKey(folder, id, ext));
  }

  /**
   With an extension without separators that is so: deleting by URL addresses the file that was written.
   */
  lemma UrlLeadsBackToFile(dir: string, folder: string, id: string, ext: string)
    requires folder == "" || SafeName(folder)
    requires SafeName(id + ext)
    ensures var key := UploadKey(folder, id, ext);
            NormalizeKey(UploadUrl(key)) == key && JoinPath(dir, NormalizeKey(UploadUrl(key))) == JoinPath(dir, key)
  {
    var name := id + ext;
    var key := if folder == "" then name else folder + "/" + name;
    assert key == (if folder == "" then "" else folder + "/") + id + ext;
    FixSlashesKeeps(key);
    SplitOfSegment(name);
    assert key[0] == if folder == "" then name[0] else folder[0];
    assert Clean(Split(key)) by {
      if folder != "" {
        SplitOfSlash(folder, name);
        SplitOfSegment(folder);
        assert Split(key) == [folder] + [name];
      }
    }
    KeyComesBackIff(key);
  }

  /** The normaliser is not idempotent: a file in a folder itself called "uploads" loses the folder the second time. */
  lemma NormalizingTwiceDiffers(name: string)
    requires SafeName(name)
    ensures var key := UploadKey("uploads", name, "");
            NormalizeKey(UploadUrl(key)) == key && NormalizeKey(key) == name != key
  {
    var key := "uploads/" + name;
    assert name + "" == name && "uploads" + "/" == "uploads/";
    assert "uploads/" + name + "" == key;
    FixSlashesKeeps(key);
    UrlLeadsBackToFile("", "uploads", name, "");
    KeyLosesFolder(name);
  }

  // The extension the uploader takes from the name a file was sent under.

  function WithoutEndSlashes(path: string): string {
    if path != "" && path[|path| - 1] == '/' then WithoutEndSlashes(path[..|path| - 1]) else path
  }

  function BaseName(path: string): string {
    var segments := Split(WithoutEndSlashes(path)); segments[|segments| - 1]
  }

  /** The place of the last dot, or |s| when there is none. */
  function LastDot(s: string): (i: nat)
    ensures i <= |s|
    ensures i < |s| ==> s[i] == '.'
    ensures forall j :: i < j < |s| ==> s[j] != '.'
  {
    if s == "" then 0
    else if s[|s| - 1] == '.' then |s| - 1
    else
      var i := LastDot(s[..|s| - 1]);
      if i == |s| - 1 then |s| else i
  }

  /** `path.extname`. */
  function ExtName(path: string): string {
    var base := BaseName(path);
    var i := LastDot(base);
    if i == |base| || i == 0 || base == ".." then "" else base[i..]
  }

  /** The key of a file sent under the name `original`. */
  function KeyOfFile(folder: string, id: string, original: string): string {
    UploadKey(folder, id, Text.Lower(ExtName(original)))
  }

  lemma {:induction false} LowerAvoids(s: string, c: char)
    requires (c == '.' || c == '/') && c !in s
    ensures c !in Text.Lower(s)
  {
    if s == "" {
    } else {
      LowerAvoids(s[1..], c);
    }
  }

  /** An extension is empty or a dot and a rest without dots and slashes. */
  lemma ExtensionShape(original: string) returns (rest: string)
    ensures var ext := Text.Lower(ExtName(original)); ext == "" || ext == "." + rest
    ensures '.' !in rest && '/' !in rest
  {
    var ext := ExtName(original);
    rest := "";
    if ext != "" {
      var base := BaseName(original);
      SplitSegments(WithoutEndSlashes(original));
      assert Segment(base) && ext == "." + ext[1..];
      assert Text.Lower(ext) == Text.LowerChar('.') + Text.Lower(ext[1..]);
      LowerAvoids(ext[1..], '.');
      LowerAvoids(ext[1..], '/');
      rest := Text.Lower(ext[1..]);
    }
  }

  lemma {:induction false} LastDotAt(stem: string, ext: string)
    requires '.' !in ext
    ensures LastDot(stem + "." + ext) == |stem|
    decreases |ext|
  {
    var s := stem + "." + ext;
    if ext == "" {
      assert s[|s| - 1] == '.';
    } else {
      var shorter := ext[..|ext| - 1];
      assert s[..|s| - 1] == stem + "." + shorter && s[|s| - 1] == ext[|ext| - 1];
      LastDotAt(stem, shorter);
    }
  }

  lemma {:induction false} NoDot(s: string)
    requires '.' !in s
    ensures LastDot(s) == |s|
  {
    if s == "" {
    } else {
      NoDot(s[..|s| - 1]);
    }
  }

  lemma BaseNameIs(folder: string, base: string)
    requires Segment(base) && base != ""
    ensures BaseName(base) == base && BaseName(folder + "/" + base) == base
  {
    var path := folder + "/" + base;
    NoSlashIn(base, |base| - 1);
    assert path[|path| - 1] == base[|base| - 1];
    SplitOfSegment(base);
    SplitOfSlash(folder, base);
  }

  /** The extension is the last dot of the file name and what follows, unless the name begins with that dot. */
  lemma ExtNameIs(folder: string, stem: string, ext: string)
    requires Segment(stem) && stem != "" && stem + "." + ext != ".." && Segment(ext) && '.' !in ext
    ensures var base := stem + "." + ext; ExtName(base) == "." + ext && ExtName(folder + "/" + base) == "." + ext
    ensures '.' !in stem ==> ExtName(stem) == "" && ExtName(folder + "/" + stem) == ""
  {
    var base := stem + "." + ext;
    BaseNameIs(folder, base);
    LastDotAt(stem, ext);
    assert base[|stem|..] == "." + ext;
    BaseNameIs(folder, stem);
    if '.' !in stem {
      NoDot(stem);
    }
  }

  /** The key of a file with a usual name: folder, id and lower-cased extension. */
  lemma KeyOfUsualFile(folder: string, id: string, stem: string, ext: string)
    requires Segment(stem) && stem != "" && stem + "." + ext != ".." && Segment(ext) && '.' !in ext
    requires '\\' !in Text.Lower(ext) && '\\' !in folder && '\\' !in id
    ensures KeyOfFile(folder, id, stem + "." + ext)
            == (if folder == "" then "" else folder + "/") + id + ("." + Text.Lower(ext))
  {
    ExtNameIs("", stem, ext);
    assert ("." + ext)[1..] == ext && Text.Lower("." + ext) == Text.LowerChar('.') + Text.Lower(ext);
    FixSlashesKeeps((if folder == "" then "" else folder + "/") + id + ("." + Text.Lower(ext)));
  }

  /** A name of letters, digits and the like. */
  predicate PlainName(s: string) {
    SafeName(s) && '.' !in s
  }

  lemma {:induction false} FixSlashesConcat(a: string, b: string)
    ensures FixSlashes(a + b) == FixSlashes(a) + FixSlashes(b)
  {
    if a == "" {
      assert a + b == b;
    } else {
      assert (a + b)[1..] == a[1..] + b;
      FixSlashesConcat(a[1..], b);
    }
  }

  lemma {:induction false} FixSlashesAvoids(s: string)
    requires '.' !in s
    ensures '.' !in FixSlashes(s)
  {
    if s == "" {
    } else {
      FixSlashesAvoids(s[1..]);
    }
  }

  lemma {:induction false} SplitAvoidsDots(s: string)
    requires '.' !in s
    ensures forall i :: 0 <= i < |Split(s)| ==> '.' !in Split(s)[i]
  {
    if s == "" {
    } else {
      SplitAvoidsDots(s[1..]);
    }
  }

  lemma {:induction false} SplitOfHead(head: string, s: string)
    requires Segment(head)
    ensures Split(head + s) == [head + Split(s)[0]] + Split(s)[1..]
  {
    if head == "" {
      assert head + s == s && head + Split(s)[0] == Split(s)[0];
      assert [Split(s)[0]] + Split(s)[1..] == Split(s);
    } else {
      assert (head + s)[1..] == head[1..] + s;
      SplitOfHead(head[1..], s);
      assert [head[0]] + (head[1..] + Split(s)[0]) == head + Split(s)[0];
    }
  }

  /** The part of the key behind the folder: an id and, after a dot or right at once, what has no more dots. */
  lemma FileSegments(id: string, dot: string, rest: string)
    requires PlainName(id) && (dot == "" || dot == ".") && '.' !in rest
    ensures var segments := Split(id + dot + rest);
            && ".." !in segments && segments[0] != "" && segments[0] != "."
  {
    SplitOfHead(id + dot, rest);
    SplitAvoidsDots(rest);
    var segments := Split(id + dot + rest);
    assert segments[0] == id + dot + Split(rest)[0];
    assert segments[0][0] == id[0] != '.';
    forall i | 0 <= i < |segments| ensures segments[i] != ".." {
      if i > 0 {
        assert segments[i] == Split(rest)[i] && ".."[0] == '.';
      }
    }
  }

  lemma FixedExtension(original: string) returns (dot: string, rest: string)
    ensures (dot == "" || dot == ".") && '.' !in rest
    ensures FixSlashes(Text.Lower(ExtName(original))) == dot + rest
  {
    var tail := ExtensionShape(original);
    dot, rest := "", "";
    if Text.Lower(ExtName(original)) != "" {
      FixSlashesConcat(".", tail);
      FixSlashesKeeps(".");
      FixSlashesAvoids(tail);
      dot, rest := ".", FixSlashes(tail);
    }
  }

  lemma KeyOfFileShape(folder: string, id: string, original: string) returns (dot: string, rest: string)
    requires (folder == "" || PlainName(folder)) && PlainName(id)
    ensures (dot == "" || dot == ".") && '.' !in rest
    ensures KeyOfFile(folder, id, original) == (if folder == "" then "" else folder + "/") + (id + dot + rest)
  {
    dot, rest := FixedExtension(original);
    var prefix := if folder == "" then "" else folder + "/";
    FixSlashesConcat(prefix + id, Text.Lower(ExtName(original)));
    FixSlashesKeeps(prefix + id);
    Reassociate(prefix, id, dot, rest);
  }

  lemma Reassociate(a: string, b: string, c: string, d: string)
    ensures a + b + (c + d) == a + (b + c + d)
  {
  }

  lemma NamesBeginWith(segments: seq<string>)
    requires segments != [] && segments[0] != "" && segments[0] != "."
    ensures Names(segments) != [] && Names(segments)[0] == segments[0]
  {
    NamesConcat(segments[..1], segments[1..]);
    assert segments[..1] + segments[1..] == segments;
    assert segments[..1][..0] == [] && Names(segments[..1]) == [segments[0]];
  }

  /** Whatever name a file is sent under, no segment of its key climbs. */
  lemma KeyOfFileDoesNotClimb(folder: string, id: string, original: string)
    requires (folder == "" || PlainName(folder)) && PlainName(id)
    ensures var key := KeyOfFile(folder, id, original);
            && key != "" && key[0] != '/' && key[0] != '.' && '\\' !in key
            && ".." !in Split(key)
  {
    var key := KeyOfFile(folder, id, original);
    var dot, rest := KeyOfFileShape(folder, id, original);
    var file := id + dot + rest;
    FileSegments(id, dot, rest);
    FixSlashesCleans((if folder == "" then "" else folder + "/") + id + Text.Lower(ExtName(original)));
    if folder == "" {
      assert key == file && key[0] == id[0];
    } else {
      assert key == folder + "/" + file && key[0] == folder[0];
      SplitOfSlash(folder, file);
      SplitOfSegment(folder);
    }
  }

  predicate EndsInSlash(path: string) {
    path != "" && path[|path| - 1] == '/'
  }

  /** The same names and the same end: the same path. */
  lemma SameNamesSamePath(dir: string, a: string, b: string)
    requires a != "" && b != "" && a[0] != '/' && b[0] != '/' && (EndsInSlash(a) <==> EndsInSlash(b))
    requires ".." !in Split(a) && ".." !in Split(b) && Names(Split(a)) == Names(Split(b))
    ensures JoinPath(dir, a) == JoinPath(dir, b)
  {
    if dir == "" {
      ResolveIsNames(Split(a), true);
      ResolveIsNames(Split(b), true);
    } else {
      JoinedSegments(dir, a);
      JoinedSegments(dir, b);
    }
  }

  lemma JoinedSegments(dir: string, key: string)
    requires dir != "" && key != "" && ".." !in Split(key)
    ensures var path := dir + "/" + key;
            && Resolve(Split(path), !IsAbsolute(path)) == Folder(dir) + Names(Split(key))
            && (IsAbsolute(path) <==> IsAbsolute(dir)) && (EndsInSlash(path) <==> EndsInSlash(key))
  {
    SplitOfSlash(dir, key);
    ResolveAppends(Split(dir), Split(key), !IsAbsolute(dir));
  }

  lemma NormalizingKeepsNames(key: string)
    requires key != "" && key[0] != '/' && key[0] != '.' && '\\' !in key && ".." !in Split(key)
    ensures var n := Normalize(key);
            && n != "" && n[0] == key[0] && ".." !in Split(n) && Names(Split(n)) == Names(Split(key))
            && (EndsInSlash(n) <==> EndsInSlash(key))
  {
    var done, trail := Names(Split(key)), EndsInSlash(key);
    FirstSegment(key);
    NamesBeginWith(Split(key));
    ResolveIsNames(Split(key), true);
    NamesAreMembers(Split(key));
    NormalizedSegments(key);
    SplitOfDecorated(false, Join(done), trail);
    assert Split(Normalize(key)) == Edge(false) + done + Edge(trail);
    NamesOfSegments(false, done, trail);
    EndsOfJoin(done);
    assert Join(done)[0] == done[0][0];
  }

  /**
   Whatever name a file is sent under, it is written inside the upload directory, and deletion by its URL
   addresses exactly the path it was written to.
   */
  lemma DeletionFindsUploadedFile(dir: string, folder: string, id: string, original: string)
    requires (folder == "" || PlainName(folder)) && PlainName(id)
    ensures var key := KeyOfFile(folder, id, original);
            && (dir != "" ==> Folder(dir + "/" + key) == Folder(dir) + Names(Split(key)) && ".." !in Names(Split(key)))
            && JoinPath(dir, NormalizeKey(UploadUrl(key))) == JoinPath(dir, key)
  {
    var key := KeyOfFile(folder, id, original);
    KeyOfFileDoesNotClimb(folder, id, original);
    NamesAreMembers(Split(key));
    if dir != "" {
      JoinedSegments(dir, key);
    }
    NormalizingKeepsNames(key);
    NormalKeyIsTaken(key);
    SameNamesSamePath(dir, Normalize(key), key);
  }

  lemma NormalKeyIsTaken(key: string)
    requires key != "" && key[0] != '.' && '\\' !in key && Normalize(key) != "" && Normalize(key)[0] == key[0]
    ensures NormalizeKey(UploadUrl(key)) == Normalize(key)
  {
    UrlPrefixIsStripped(key);
  }

  // The forms in which a key arrives.

  function Slashes(n: nat): string {
    if n == 0 then "" else "/" + Slashes(n - 1)
  }

  /** The scheme of a web address, in any case. */
  predicate Scheme(p: string) {
    (|p| == 7 && StartsWithIgnoringCase(p, "http://")) || (|p| == 8 && StartsWithIgnoringCase(p, "https://"))
  }

  predicate FolderName(f: string) {
    |f| == 8 && (StartsWithIgnoringCase(f, "uploads/") || StartsWithIgnoringCase(f, "uploads\\"))
  }

  lemma {:induction false} SlashesGo(n: nat, rest: string)
    requires rest == "" || rest[0] != '/'
    ensures StripSlashes(Slashes(n) + rest) == rest
  {
    if n == 0 {
      assert Slashes(n) + rest == rest;
    } else {
      assert (Slashes(n) + rest)[1..] == Slashes(n - 1) + rest;
      SlashesGo(n - 1, rest);
    }
  }

  lemma {:induction false} SegmentGoes(name: string, rest: string)
    requires Segment(name) && (rest == "" || rest[0] == '/')
    ensures DropSegment(name + rest) == rest
  {
    if name == "" {
      assert name + rest == rest;
    } else {
      assert (name + rest)[1..] == name[1..] + rest;
      NoSlashIn(name, 0);
      SegmentGoes(name[1..], rest);
    }
  }

  lemma HostGoes(scheme: string, name: string, rest: string)
    requires Scheme(scheme) && name != "" && Segment(name) && (rest == "" || rest[0] == '/')
    ensures StripHost(scheme + name + rest) == rest
  {
    var s := scheme + name + rest;
    assert forall i :: 0 <= i < |scheme| ==> s[i] == scheme[i];
    assert s[|scheme|..] == name + rest;
    SegmentGoes(name, rest);
    NoSlashIn(name, 0);
    assert |scheme| == 7 ==> StartsWithIgnoringCase(s, "http://") && s[4] == scheme[4];
    assert |scheme| == 8 ==> StartsWithIgnoringCase(s, "https://");
    assert "http://"[4] == ':' && "https://"[4] == 's';
  }

  lemma FolderNameGoes(folder: string, key: string)
    requires FolderName(folder) && '\\' !in key
    ensures StripFolder(folder + key) == key
  {
    var s := folder + key;
    assert forall i :: 0 <= i < 8 ==> s[i] == folder[i];
    assert s[8..] == key;
    assert "uploads/"[7] == '/' && "uploads\\"[7] == '\\';
    assert LowerAscii(s[7]) == LowerAscii(folder[7]);
    if |key| >= 8 {
      assert key[7] in key && LowerAscii(key[7]) != '\\';
    }
    assert !StartsWithIgnoringCase(key, "uploads\\");
    assert StartsWithIgnoringCase(folder, "uploads/") ==> StartsWithIgnoringCase(s, "uploads/");
    assert StartsWithIgnoringCase(folder, "uploads\\") ==>
        !StartsWithIgnoringCase(s, "uploads/") && StartsWithIgnoringCase(s, "uploads\\");
  }

  /**
   A key is read from its path with any number of slashes and either folder name in front, and from a web
   address on any host, as from the URL the uploader returns.
   */
  lemma EveryFormLeadsToKey(scheme: string, host: string, n: nat, folder: string, key: string)
    requires key != "" && key[0] != '/' && '\\' !in key && FolderName(folder)
    requires (scheme == "" && host == "") || (Scheme(scheme) && host != "" && Segment(host) && n > 0)
    ensures NormalizeKey(scheme + host + (Slashes(n) + (folder + key))) == NormalizeKey(UploadUrl(key))
  {
    var rest := Slashes(n) + (folder + key);
    assert LowerAscii(folder[0]) == 'u';
    if scheme == "" {
      assert scheme + host + rest == rest;
      PathHasNoHost(n, folder, key);
    } else {
      assert rest[0] == '/';
      HostGoes(scheme, host, rest);
    }
    SlashesGo(n, folder + key);
    FolderNameGoes(folder, key);
    FixSlashesKeeps(key);
    UrlPrefixIsStripped(key);
  }

  lemma PathHasNoHost(n: nat, folder: string, key: string)
    requires FolderName(folder)
    ensures var s := Slashes(n) + (folder + key); StripHost(s) == s
  {
    var s := Slashes(n) + (folder + key);
    assert s[0] == if n == 0 then folder[0] else '/';
    assert LowerAscii(folder[0]) == 'u';
    assert "http://"[0] == 'h' && "https://"[0] == 'h';
    assert LowerAscii(s[0]) != 'h';
  }
}
