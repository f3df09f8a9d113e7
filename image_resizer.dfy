/**
 * The image derivative pipeline: for an original image (a key containing
 * `-org.`) it writes five WebP derivatives, each first as an empty
 * placeholder with status `processing`, then with its content, metadata and
 * tags, and it tracks the original's own status in its metadata.
 *
 * The storage calls, the image library and their failures are inputs (`Env`);
 * the handler returns its response and the log of the calls it issued.
 */
module ImageResizer {
  import opened Wrappers
  import opened Text
  import opened Uri
  import opened Trace

  /** User-defined object metadata. */
  type Metadata = map<string, string>

  datatype Tag = Tag(key: string, value: string)

  datatype Resolution = Resolution(suffix: string, width: nat, tag: string)

  /** The marker of an original image's key. */
  const OrgSuffix: string := "-org."

  const Resolutions: seq<Resolution> := [
    Resolution("-xs", 576, "xs"),
    Resolution("-sm", 768, "sm"),
    Resolution("-md", 992, "md"),
    Resolution("-lg", 1200, "lg"),
    Resolution("-xl", 1400, "xl")
  ]

  const SizeTags: set<string> := {"xs", "sm", "md", "lg", "xl"}

  /** The read-back fields of an encoded image that become metadata and tags, in this order. */
  const MetadataFields: seq<string> := ["width", "height", "size", "orientation", "channels", "space"]

  /** The storage service's cap on the number of tags of one object. */
  const TagLimit: nat := 10

  const WebpType: string := "image/webp"

  /** `JSON.stringify` of a message without quotes, backslashes or control characters: the message in double quotes. */
  function JsonString(message: string): string {
    "\"" + message + "\""
  }

  const SkippedBody: string := JsonString("File skipped: not an original file")
  const SuccessBody: string := JsonString("Images resized and tagged successfully")
  const ErrorBody: string := JsonString("Error resizing images")

  /** The content written for a derivative: the empty placeholder, or the source resized to a width. */
  datatype Body = Empty | Resized(width: nat)

  datatype Op =
    | GetObject(bucket: string, key: string)
    | HeadObject(bucket: string, key: string)
    /** A copy onto itself with `MetadataDirective: 'REPLACE'`. */
    | CopyObject(bucket: string, key: string, copySource: string, metadata: Metadata)
    | GetObjectTagging(bucket: string, key: string)
    | PutObject(bucket: string, key: string, body: Body, contentType: string, metadata: Metadata)
    /** Resize to a width, auto-rotate, encode as WebP and read the result's metadata back. */
    | Transform(width: nat)
    | PutObjectTagging(bucket: string, key: string, tagSet: seq<Tag>)

  /** `Rejected`: the handler's promise is rejected (key decoding threw before the `try`). */
  datatype Response = Rejected | Http(statusCode: nat, body: string)

  /**
   * What the outside world answers for one resolution: whether the placeholder
   * put returned, the metadata read back from the encoded image (its defined
   * fields, already converted to strings) or a thrown error, and whether the
   * content put and the tagging put returned.
   */
  datatype StepEnv = StepEnv(placeholder: bool, encoded: Reply<Metadata>, content: bool, tagging: bool)

  /**
   * What the outside world answers for one invocation: getObject, headObject
   * (the user-defined metadata), the `processing` copy, getObjectTagging (its
   * `TagSet`, possibly absent), the five resolutions, and the `completed` copy.
   */
  datatype Env = Env(
    getObject: bool,
    headObject: Reply<Metadata>,
    markProcessing: bool,
    tagging: Reply<Option<seq<Tag>>>,
    steps: seq<StepEnv>,
    markCompleted: bool)

  datatype Invocation = Invocation(response: Response, log: seq<Event<Op>>)

  // ---------------------------------------------------------------- naming

  predicate IsOriginal(key: string) {
    Contains(key, OrgSuffix)
  }

  /** The regular expression `/\.[^.]+$/` matches at `i`: a dot followed by one or more non-dots up to the end. */
  predicate ExtensionAt(s: string, i: int) {
    0 <= i < |s| - 1 && s[i] == '.' && forall k :: i < k < |s| ==> s[k] != '.'
  }

  /** `s.replace(/\.[^.]+$/, '.webp')`. */
  function ForceWebp(s: string): string {
    var j := LastIndexOf(s, '.');
    if 0 <= j < |s| - 1 then s[..j] + ".webp" else s
  }

  /** The extension, when the regular expression matches, becomes `.webp`; otherwise nothing changes. */
  lemma ForceWebpSpec(s: string)
    ensures forall i :: ExtensionAt(s, i) ==> ForceWebp(s) == s[..i] + ".webp"
    ensures (forall i :: !ExtensionAt(s, i)) ==> ForceWebp(s) == s
  {
    var j := LastIndexOf(s, '.');
    LastIndexOfSpec(s, '.');
    if 0 <= j < |s| - 1 {
      assert ExtensionAt(s, j);
    }
  }

  /** `key.replace('-org.', suffix + '.').replace(/\.[^.]+$/, '.webp')`. */
  function DerivativeKey(key: string, suffix: string): string {
    ForceWebp(ReplaceFirst(key, OrgSuffix, suffix + "."))
  }

  /**
   * After the first step the key holds a dot; if it does not end in a dot the
   * derivative key ends in `.webp`, and otherwise the second step changes nothing.
   */
  lemma DerivativeKeySteps(key: string, suffix: string)
    requires IsOriginal(key)
    ensures var m := ReplaceFirst(key, OrgSuffix, suffix + ".");
      && m != []
      && (m[|m| - 1] != '.' ==> EndsWith(DerivativeKey(key, suffix), ".webp"))
      && (m[|m| - 1] == '.' ==> DerivativeKey(key, suffix) == m)
  {
    var i := IndexOf(key, OrgSuffix);
    var m := ReplaceFirst(key, OrgSuffix, suffix + ".");
    assert m == key[..i] + (suffix + ".") + key[i + |OrgSuffix|..];
    var d := i + |suffix|;
    assert m[d] == '.';
    var j := LastIndexOf(m, '.');
    LastIndexOfSpec(m, '.');
    assert d <= j;
    if m[|m| - 1] != '.' {
      assert ExtensionAt(m, j);
      var r := m[..j] + ".webp";
      assert r[|r| - 5..] == ".webp";
    } else {
      assert forall k :: !ExtensionAt(m, k);
    }
  }

  /** For `base-org.ext` with a dot-free extension, the derivative key is `base` + suffix + `.webp`. */
  lemma DerivativeKeyOfOriginal(base: string, ext: string, suffix: string)
    requires forall j :: 0 <= j < |base| ==> !OccursAt(base + OrgSuffix + ext, OrgSuffix, j)
    requires ext != [] && '.' !in ext && '.' !in suffix
    ensures DerivativeKey(base + OrgSuffix + ext, suffix) == base + suffix + ".webp"
  {
    ReplaceFirstAt(base, OrgSuffix, ext, suffix + ".");
    var m := base + (suffix + ".") + ext;
    var i := |base| + |suffix|;
    assert m[i] == '.';
    forall k | i < k < |m| ensures m[k] != '.' {
      assert m[k] == ext[k - i - 1];
    }
    assert ExtensionAt(m, i);
    ForceWebpSpec(m);
    assert m[..i] == base + suffix;
  }

  /** A base name without `-` holds no occurrence of `-org.` that starts inside it. */
  lemma NoDashBase(base: string, ext: string)
    requires '-' !in base
    ensures forall j :: 0 <= j < |base| ==> !OccursAt(base + OrgSuffix + ext, OrgSuffix, j)
  {
    var s := base + OrgSuffix + ext;
    forall j | 0 <= j < |base| ensures !OccursAt(s, OrgSuffix, j) {
      assert s[j] == base[j];
      if j + |OrgSuffix| <= |s| {
        assert s[j..j + |OrgSuffix|][0] == s[j];
      }
    }
  }

  /** The example of a PNG original. */
  lemma PhotoExample()
    ensures DerivativeKey("photo" + OrgSuffix + "png", "-xs") == "photo" + "-xs" + ".webp"
  {
    NoDashBase("photo", "png");
    DerivativeKeyOfOriginal("photo", "png", "-xs");
  }

  /** The table: five resolutions, in the order xs, sm, md, lg, xl, with strictly increasing widths. */
  lemma ResolutionTable()
    ensures |Resolutions| == 5
    ensures forall i :: 0 <= i < 5 ==> Resolutions[i].suffix == "-" + Resolutions[i].tag
    ensures [Resolutions[0].tag, Resolutions[1].tag, Resolutions[2].tag, Resolutions[3].tag, Resolutions[4].tag]
      == ["xs", "sm", "md", "lg", "xl"]
    ensures forall i, j :: 0 <= i < j < 5 ==> Resolutions[i].width < Resolutions[j].width
    ensures forall r :: r in Resolutions ==> r.tag in SizeTags && '.' !in r.suffix
  {
  }

  // ------------------------------------------------------- metadata strings

  /** The entries of `metadataStrings`: the fields that are defined in `info`, in field order. */
  function DefinedFields(fields: seq<string>, info: Metadata): (r: seq<Tag>)
    ensures |r| <= |fields|
    ensures forall t :: t in r ==> t.key in fields && t.key in info && t.value == info[t.key]
    ensures forall f :: f in fields && f in info ==> Tag(f, info[f]) in r
    decreases |fields|
  {
    if fields == [] then []
    else
      var last := fields[|fields| - 1];
      var front := fields[..|fields| - 1];
      assert forall f :: f in fields ==> f in front || f == last;
      DefinedFields(front, info) + if last in info then [Tag(last, info[last])] else []
  }

  /** The `reduce` that builds `metadataStrings`. */
  method CollectMetadataStrings(fields: seq<string>, info: Metadata) returns (entries: seq<Tag>)
    ensures entries == DefinedFields(fields, info)
  {
    entries := [];
    for i := 0 to |fields|
      invariant entries == DefinedFields(fields[..i], info)
    {
      var field := fields[i];
      assert fields[..i + 1][..i] == fields[..i];
      if field in info {
        entries := entries + [Tag(field, info[field])];
      }
    }
    assert fields[..|fields|] == fields;
  }

  /** The keys of `r` come from `fields`, each later entry from a later field. */
  predicate KeysInOrder(r: seq<Tag>, fields: seq<string>) {
    forall i, j :: 0 <= i < j < |r| ==>
      exists a, b :: 0 <= a < b < |fields| && r[i].key == fields[a] && r[j].key == fields[b]
  }

  /**
   * The entries follow the order of the field list, so the pairs that fit
   * under the tag cap are those of the first defined fields.
   */
  lemma {:induction false} DefinedFieldsInOrder(fields: seq<string>, info: Metadata)
    ensures KeysInOrder(DefinedFields(fields, info), fields)
    decreases |fields|
  {
    if fields != [] {
      var last := fields[|fields| - 1];
      var front := fields[..|fields| - 1];
      var q := DefinedFields(front, info);
      DefinedFieldsInOrder(front, info);
      assert KeysInOrder(q, front);
      var r := DefinedFields(fields, info);
      assert r == q + if last in info then [Tag(last, info[last])] else [];
      forall i, j | 0 <= i < j < |r|
        ensures exists a, b :: 0 <= a < b < |fields| && r[i].key == fields[a] && r[j].key == fields[b]
      {
        if j < |q| {
          var a, b :| 0 <= a < b < |front| && q[i].key == front[a] && q[j].key == front[b];
          assert r[i] == q[i] && r[j] == q[j];
          assert fields[a] == front[a] && fields[b] == front[b];
        } else {
          assert r[i] == q[i] && q[i] in q;
          assert q[i].key in front;
          var a :| 0 <= a < |front| && front[a] == q[i].key;
          assert fields[a] == front[a];
          assert r[j].key == fields[|fields| - 1];
        }
      }
    }
  }

  /** The object a list of entries denotes; a later entry wins. */
  function ToMap(entries: seq<Tag>): Metadata
    decreases |entries|
  {
    if entries == [] then map[]
    else
      var last := entries[|entries| - 1];
      ToMap(entries[..|entries| - 1])[last.key := last.value]
  }

  /** The read-back metadata restricted to the listed fields. */
  function Restrict(info: Metadata, fields: seq<string>): Metadata {
    map f | f in info && f in fields :: info[f]
  }

  /** Appending an entry overrides its key. */
  lemma ToMapSnoc(d: seq<Tag>, t: Tag)
    ensures ToMap(d + [t]) == ToMap(d)[t.key := t.value]
  {
    assert (d + [t])[..|d + [t]| - 1] == d;
  }

  /** Restricting to one more field. */
  lemma RestrictSnoc(info: Metadata, front: seq<string>, last: string)
    ensures Restrict(info, front + [last]) ==
      if last in info then Restrict(info, front)[last := info[last]] else Restrict(info, front)
  {
    var fields := front + [last];
    assert forall f :: f in fields <==> f in front || f == last;
    var l := Restrict(info, fields);
    var r := if last in info then Restrict(info, front)[last := info[last]] else Restrict(info, front);
    assert l.Keys == r.Keys;
    assert forall k :: k in l ==> l[k] == r[k];
  }

  /** `metadataStrings` is the read-back metadata restricted to the listed fields. */
  lemma {:induction false} MetadataStringsRestrict(fields: seq<string>, info: Metadata)
    ensures ToMap(DefinedFields(fields, info)) == Restrict(info, fields)
    decreases |fields|
  {
    if fields != [] {
      var last := fields[|fields| - 1];
      var front := fields[..|fields| - 1];
      assert fields == front + [last];
      MetadataStringsRestrict(front, info);
      RestrictSnoc(info, front, last);
      var d := DefinedFields(front, info);
      if last in info {
        assert DefinedFields(fields, info) == d + [Tag(last, info[last])];
        ToMapSnoc(d, Tag(last, info[last]));
      } else {
        assert DefinedFields(fields, info) == d + [];
        assert d + [] == d;
      }
    }
  }

  // ------------------------------------------------------------------- tags

  function Min(a: int, b: int): int {
    if a <= b then a else b
  }

  /** How many metadata pairs still fit after `used` tags, with `available` pairs offered. */
  function Room(used: nat, available: nat): nat {
    if used >= TagLimit then 0 else Min(TagLimit - used, available)
  }

  /**
   * The tag set of a derivative: the source's tags unchanged, then
   * `resolution`, then `org-image-key`, then as many metadata pairs, in order,
   * as fit while the list is shorter than the cap.
   */
  function CappedTags(existing: seq<Tag>, tag: string, key: string, metadata: seq<Tag>): seq<Tag> {
    var base := existing + [Tag("resolution", tag), Tag("org-image-key", key)];
    base + metadata[..Room(|base|, |metadata|)]
  }

  /**
   * The derivative's tags keep the source's tags as a prefix, then carry the
   * resolution and the back-reference, then a prefix of the metadata pairs; the
   * list stays within the cap whenever the source had room for the two fixed tags.
   */
  lemma CappedTagsShape(existing: seq<Tag>, tag: string, key: string, metadata: seq<Tag>)
    ensures var r := CappedTags(existing, tag, key, metadata);
      && |r| == (if |existing| + 2 >= TagLimit then |existing| + 2
                 else Min(TagLimit, |existing| + 2 + |metadata|))
      && r[..|existing|] == existing
      && r[|existing|] == Tag("resolution", tag) && r[|existing| + 1] == Tag("org-image-key", key)
      && r[|existing| + 2..] == metadata[..|r| - |existing| - 2]
      && (|existing| + 2 <= TagLimit ==> |r| <= TagLimit)
  {
    var r := CappedTags(existing, tag, key, metadata);
    assert r[..|existing|] == existing;
  }

  /** The cap guards only the metadata pairs: a source with nine tags gives a derivative eleven. */
  lemma TagCapExceeded(existing: seq<Tag>, tag: string, key: string, metadata: seq<Tag>)
    requires |existing| == TagLimit - 1
    ensures |CappedTags(existing, tag, key, metadata)| == TagLimit + 1
  {
    CappedTagsShape(existing, tag, key, metadata);
  }

  /** The `newTags` array grown by `push` under the length guard. */
  method BuildTags(existing: seq<Tag>, tag: string, key: string, metadata: seq<Tag>) returns (newTags: seq<Tag>)
    ensures newTags == CappedTags(existing, tag, key, metadata)
  {
    var base := existing + [Tag("resolution", tag), Tag("org-image-key", key)];
    newTags := base;
    for i := 0 to |metadata|
      invariant newTags == base + metadata[..Room(|base|, i)]
    {
      assert metadata[..i + 1] == metadata[..i] + [metadata[i]];
      if |newTags| < TagLimit {
        newTags := newTags + [metadata[i]];
      }
    }
    assert metadata[..|metadata|] == metadata;
  }

  // --------------------------------------------------------------- metadata

  const Reserved: set<string> := {"status", "resolution", "org-image-key"}

  /** `{ ...user, status: 'processing', resolution: tag, 'org-image-key': key }`. */
  function PlaceholderMetadata(user: Metadata, tag: string, key: string): Metadata {
    user["status" := "processing"]["resolution" := tag]["org-image-key" := key]
  }

  /** The placeholder keeps the user metadata, with the status, resolution and back-reference set. */
  lemma PlaceholderMetadataOverlay(user: Metadata, tag: string, key: string)
    ensures var m := PlaceholderMetadata(user, tag, key);
      && m.Keys == user.Keys + Reserved
      && m["status"] == "processing" && m["resolution"] == tag && m["org-image-key"] == key
      && forall k :: k in user && k !in Reserved ==> m[k] == user[k]
  {
  }

  /** `{ ...user, status: 'completed', resolution: tag, 'org-image-key': key, ...strings }`. */
  function FinalMetadata(user: Metadata, tag: string, key: string, strings: Metadata): Metadata {
    user["status" := "completed"]["resolution" := tag]["org-image-key" := key] + strings
  }

  /** In the final metadata the derived strings win over everything; the fixed keys win over the user's. */
  lemma FinalMetadataOverlay(user: Metadata, tag: string, key: string, strings: Metadata)
    ensures var m := FinalMetadata(user, tag, key, strings);
      && m.Keys == user.Keys + Reserved + strings.Keys
      && (forall k :: k in strings ==> m[k] == strings[k])
      && ("status" !in strings ==> m["status"] == "completed")
      && ("resolution" !in strings ==> m["resolution"] == tag)
      && ("org-image-key" !in strings ==> m["org-image-key"] == key)
      && forall k :: k in user && k !in Reserved && k !in strings ==> m[k] == user[k]
  {
  }

  /** `{ ...user, status }`, written by a copy of the source onto itself. */
  function MarkStatus(bucket: string, key: string, user: Metadata, status: string): (op: Op)
    ensures op.CopyObject? && op.bucket == bucket && op.key == key && op.copySource == bucket + "/" + key
    ensures op.metadata.Keys == user.Keys + {"status"} && op.metadata["status"] == status
    ensures forall k :: k in user && k != "status" ==> op.metadata[k] == user[k]
  {
    CopyObject(bucket, key, bucket + "/" + key, user["status" := status])
  }

  // ------------------------------------------------------------------ runs

  /** One call: logged as returned or as thrown. */
  function Call(ok: bool, op: Op): Run<Op> {
    Run(ok, [if ok then Done(op) else Failed(op)])
  }

  /** The placeholder put of a resolution: an empty WebP object marked `processing`. */
  function PlaceholderPut(bucket: string, key: string, user: Metadata, r: Resolution): Op {
    PutObject(bucket, DerivativeKey(key, r.suffix), Empty, WebpType, PlaceholderMetadata(user, r.tag, key))
  }

  /** The content put of a resolution: the resized image with its final metadata. */
  function ContentPut(bucket: string, key: string, user: Metadata, fields: seq<string>, r: Resolution, info: Metadata): Op {
    PutObject(bucket, DerivativeKey(key, r.suffix), Resized(r.width), WebpType,
              FinalMetadata(user, r.tag, key, ToMap(DefinedFields(fields, info))))
  }

  /** The tagging put of a resolution. */
  function TaggingPut(bucket: string, key: string, existing: seq<Tag>, fields: seq<string>, r: Resolution, info: Metadata): Op {
    PutObjectTagging(bucket, DerivativeKey(key, r.suffix), CappedTags(existing, r.tag, key, DefinedFields(fields, info)))
  }

  /** One iteration of the resolution loop. */
  function ResolutionRun(bucket: string, key: string, user: Metadata, existing: seq<Tag>,
                         fields: seq<string>, r: Resolution, e: StepEnv): Run<Op>
  {
    var placeholder := PlaceholderPut(bucket, key, user, r);
    if !e.placeholder then Run(false, [Failed(placeholder)])
    else match e.encoded
      case Threw => Run(false, [Done(placeholder), Failed(Transform(r.width))])
      case Returned(info) =>
        var content := ContentPut(bucket, key, user, fields, r, info);
        var tagging := TaggingPut(bucket, key, existing, fields, r, info);
        var before := [Done(placeholder), Done(Transform(r.width))];
        if !e.content then Run(false, before + [Failed(content)])
        else Run(e.tagging, before + [Done(content), if e.tagging then Done(tagging) else Failed(tagging)])
  }

  /** The resolution loop over `rs`: one iteration per resolution, in order, a thrown error ending the loop. */
  function Resolved(bucket: string, key: string, user: Metadata, existing: seq<Tag>,
                    fields: seq<string>, rs: seq<Resolution>, steps: seq<StepEnv>): Run<Op>
    requires |steps| == |rs|
    decreases |rs|
  {
    if rs == [] then Run(true, [])
    else Then(ResolutionRun(bucket, key, user, existing, fields, rs[0], steps[0]),
              Resolved(bucket, key, user, existing, fields, rs[1..], steps[1..]))
  }

  /** The four calls before the loop, when all of them return. */
  function Setup(bucket: string, key: string, user: Metadata, markOp: Op): seq<Event<Op>> {
    [Done(GetObject(bucket, key)), Done(HeadObject(bucket, key)), Done(markOp), Done(GetObjectTagging(bucket, key))]
  }

  /**
   * The `try` block of the handler, for the read-back fields `fields` and the
   * resolution table `rs` (the handler uses `MetadataFields` and `Resolutions`).
   */
  function Processing(bucket: string, key: string, fields: seq<string>, rs: seq<Resolution>, env: Env): Run<Op>
    requires |env.steps| == |rs|
  {
    var get := GetObject(bucket, key);
    if !env.getObject then Run(false, [Failed(get)])
    else match env.headObject
      case Threw => Run(false, [Done(get), Failed(HeadObject(bucket, key))])
      case Returned(user) =>
        var mark := MarkStatus(bucket, key, user, "processing");
        if !env.markProcessing then Run(false, [Done(get), Done(HeadObject(bucket, key)), Failed(mark)])
        else match env.tagging
          case Threw => Run(false, [Done(get), Done(HeadObject(bucket, key)), Done(mark),
                                    Failed(GetObjectTagging(bucket, key))])
          case Returned(tagSet) =>
            var existing := if tagSet.Some? then tagSet.value else [];
            Finish(bucket, key, user, Resolved(bucket, key, user, existing, fields, rs, env.steps), env.markCompleted)
  }

  /** Once the four calls before the loop returned: those calls, the loop's run, then the `completed` status write. */
  function Finish(bucket: string, key: string, user: Metadata, loop: Run<Op>, markCompleted: bool): Run<Op> {
    Then(Then(Run(true, Setup(bucket, key, user, MarkStatus(bucket, key, user, "processing"))), loop),
         Call(markCompleted, MarkStatus(bucket, key, user, "completed")))
  }

  /** What one invocation of the handler answers and which calls it issues. */
  function Expected(bucket: string, rawKey: string, env: Env): Invocation
    requires |env.steps| == |Resolutions|
  {
    match DecodeKey(rawKey)
    case None => Invocation(Rejected, [])
    case Some(key) =>
      if !IsOriginal(key) then Invocation(Http(200, SkippedBody), [])
      else
        var r := Processing(bucket, key, MetadataFields, Resolutions, env);
        Invocation(if r.ok then Http(200, SuccessBody) else Http(500, ErrorBody), r.log)
  }

  // ------------------------------------------------------ trace properties

  /** `op` is one of the calls the loop issues for resolution `r` of the source `key`. */
  predicate ForResolution(bucket: string, key: string, r: Resolution, op: Op) {
    match op
    case PutObject(b, k, body, contentType, m) =>
      && b == bucket && k == DerivativeKey(key, r.suffix) && contentType == WebpType
      && "resolution" in m && m["resolution"] == r.tag
      && "org-image-key" in m && m["org-image-key"] == key
      && "status" in m && m["status"] == (if body == Empty then "processing" else "completed")
      && (body == Empty || body == Resized(r.width))
    case PutObjectTagging(b, k, tagSet) =>
      && b == bucket && k == DerivativeKey(key, r.suffix)
      && Tag("resolution", r.tag) in tagSet && Tag("org-image-key", key) in tagSet
    case Transform(width) => width == r.width
    case _ => false
  }

  /**
   * Entries `p` to `p + 3` of `log` are the four calls of a successful
   * iteration for `r`: placeholder put, transform, content put, tagging put.
   */
  predicate CallsAt(bucket: string, key: string, r: Resolution, log: seq<Event<Op>>, p: int) {
    && 0 <= p && p + 4 <= |log|
    && log[p].Done? && log[p + 1].Done? && log[p + 2].Done? && log[p + 3].Done?
    && ForResolution(bucket, key, r, log[p].op) && log[p].op.PutObject? && log[p].op.body == Empty
    && log[p + 1].op == Transform(r.width)
    && ForResolution(bucket, key, r, log[p + 2].op) && log[p + 2].op.PutObject? && log[p + 2].op.body == Resized(r.width)
    && ForResolution(bucket, key, r, log[p + 3].op) && log[p + 3].op.PutObjectTagging?
  }

  /** Derived metadata from fields outside `Reserved` never overrides the status, resolution or back-reference keys. */
  lemma MetadataStringsKeys(fields: seq<string>, info: Metadata)
    requires forall f :: f in fields ==> f !in Reserved
    ensures ToMap(DefinedFields(fields, info)).Keys !! Reserved
  {
    MetadataStringsRestrict(fields, info);
  }

  lemma FieldsNotReserved()
    ensures forall f :: f in MetadataFields ==> f !in Reserved
  {
  }

  lemma PlaceholderForResolution(bucket: string, key: string, user: Metadata, r: Resolution)
    ensures ForResolution(bucket, key, r, PlaceholderPut(bucket, key, user, r))
  {
    PlaceholderMetadataOverlay(user, r.tag, key);
  }

  lemma ContentForResolution(bucket: string, key: string, user: Metadata, fields: seq<string>,
                             r: Resolution, info: Metadata)
    requires forall f :: f in fields ==> f !in Reserved
    ensures ForResolution(bucket, key, r, ContentPut(bucket, key, user, fields, r, info))
  {
    MetadataStringsKeys(fields, info);
    FinalMetadataOverlay(user, r.tag, key, ToMap(DefinedFields(fields, info)));
  }

  lemma TaggingForResolution(bucket: string, key: string, existing: seq<Tag>, fields: seq<string>, r: Resolution, info: Metadata)
    ensures ForResolution(bucket, key, r, TaggingPut(bucket, key, existing, fields, r, info))
  {
    var strings := DefinedFields(fields, info);
    var tagSet := CappedTags(existing, r.tag, key, strings);
    CappedTagsShape(existing, r.tag, key, strings);
    assert tagSet[|existing|] == Tag("resolution", r.tag);
    assert tagSet[|existing| + 1] == Tag("org-image-key", key);
  }

  /** An iteration stops at its first error. */
  lemma ResolutionRunStops(bucket: string, key: string, user: Metadata, existing: seq<Tag>,
                           fields: seq<string>, r: Resolution, e: StepEnv)
    ensures StopsAtFirstError(ResolutionRun(bucket, key, user, existing, fields, r, e))
  {
  }

  /** An iteration issues its placeholder put, then the transform, then (with metadata read back) its content put and tagging put. */
  lemma ResolutionRunOps(bucket: string, key: string, user: Metadata, existing: seq<Tag>,
                         fields: seq<string>, r: Resolution, e: StepEnv)
    ensures forall ev :: ev in ResolutionRun(bucket, key, user, existing, fields, r, e).log ==>
      || ev.op == PlaceholderPut(bucket, key, user, r)
      || ev.op == Transform(r.width)
      || (e.encoded.Returned? && ev.op == ContentPut(bucket, key, user, fields, r, e.encoded.value))
      || (e.encoded.Returned? && ev.op == TaggingPut(bucket, key, existing, fields, r, e.encoded.value))
  {
  }

  /** Every call of an iteration concerns the derivative of that resolution. */
  lemma ResolutionRunTargets(bucket: string, key: string, user: Metadata, existing: seq<Tag>,
                             fields: seq<string>, r: Resolution, e: StepEnv)
    requires forall f :: f in fields ==> f !in Reserved
    ensures forall ev :: ev in ResolutionRun(bucket, key, user, existing, fields, r, e).log ==> ForResolution(bucket, key, r, ev.op)
  {
    ResolutionRunOps(bucket, key, user, existing, fields, r, e);
    PlaceholderForResolution(bucket, key, user, r);
    if e.encoded.Returned? {
      ContentForResolution(bucket, key, user, fields, r, e.encoded.value);
      TaggingForResolution(bucket, key, existing, fields, r, e.encoded.value);
    }
  }

  /** Four calls with the right targets, in the right order, form a successful iteration. */
  lemma CallsOf(bucket: string, key: string, r: Resolution, p: Op, c: Op, t: Op)
    requires ForResolution(bucket, key, r, p) && p.PutObject? && p.body == Empty
    requires ForResolution(bucket, key, r, c) && c.PutObject? && c.body == Resized(r.width)
    requires ForResolution(bucket, key, r, t) && t.PutObjectTagging?
    ensures CallsAt(bucket, key, r, [Done(p), Done(Transform(r.width)), Done(c), Done(t)], 0)
  {
  }

  /** A successful iteration issues placeholder put, transform, content put and tagging put, in that order. */
  lemma ResolutionRunSucceeded(bucket: string, key: string, user: Metadata, existing: seq<Tag>,
                               fields: seq<string>, r: Resolution, e: StepEnv)
    requires forall f :: f in fields ==> f !in Reserved
    requires ResolutionRun(bucket, key, user, existing, fields, r, e).ok
    ensures var log := ResolutionRun(bucket, key, user, existing, fields, r, e).log;
      |log| == 4 && CallsAt(bucket, key, r, log, 0)
  {
    var info := e.encoded.value;
    var p := PlaceholderPut(bucket, key, user, r);
    var c := ContentPut(bucket, key, user, fields, r, info);
    var t := TaggingPut(bucket, key, existing, fields, r, info);
    assert ResolutionRun(bucket, key, user, existing, fields, r, e).log == [Done(p), Done(Transform(r.width)), Done(c), Done(t)];
    PlaceholderForResolution(bucket, key, user, r);
    ContentForResolution(bucket, key, user, fields, r, info);
    TaggingForResolution(bucket, key, existing, fields, r, info);
    CallsOf(bucket, key, r, p, c, t);
  }

  /** Calls found in a log are found at the same place after more calls are appended. */
  lemma CallsExtend(bucket: string, key: string, r: Resolution, a: seq<Event<Op>>, b: seq<Event<Op>>, p: int)
    requires CallsAt(bucket, key, r, a, p)
    ensures CallsAt(bucket, key, r, a + b, p)
  {
    assert (a + b)[p] == a[p] && (a + b)[p + 1] == a[p + 1] && (a + b)[p + 2] == a[p + 2] && (a + b)[p + 3] == a[p + 3];
  }

  /** Calls found in a log are found shifted once calls are put before it. */
  lemma CallsShift(bucket: string, key: string, r: Resolution, a: seq<Event<Op>>, b: seq<Event<Op>>, p: int)
    requires CallsAt(bucket, key, r, b, p)
    ensures CallsAt(bucket, key, r, a + b, |a| + p)
  {
    var q := |a| + p;
    assert (a + b)[q] == b[p] && (a + b)[q + 1] == b[p + 1] && (a + b)[q + 2] == b[p + 2] && (a + b)[q + 3] == b[p + 3];
  }

  /** The loop from resolution `i` on: iteration `i`, then the loop from `i + 1` on. */
  lemma ResolvedStep(bucket: string, key: string, user: Metadata, existing: seq<Tag>,
                     fields: seq<string>, rs: seq<Resolution>, steps: seq<StepEnv>, i: nat)
    requires i < |rs| && |steps| == |rs|
    ensures Resolved(bucket, key, user, existing, fields, rs[i..], steps[i..])
         == Then(ResolutionRun(bucket, key, user, existing, fields, rs[i], steps[i]),
                 Resolved(bucket, key, user, existing, fields, rs[i + 1..], steps[i + 1..]))
  {
    assert rs[i..][0] == rs[i] && steps[i..][0] == steps[i];
    assert rs[i..][1..] == rs[i + 1..] && steps[i..][1..] == steps[i + 1..];
  }

  /** The loop stops at its first error. */
  lemma {:induction false} ResolvedStops(bucket: string, key: string, user: Metadata, existing: seq<Tag>,
                                         fields: seq<string>, rs: seq<Resolution>, steps: seq<StepEnv>)
    requires |steps| == |rs|
    ensures StopsAtFirstError(Resolved(bucket, key, user, existing, fields, rs, steps))
    decreases |rs|
  {
    if rs != [] {
      ResolvedStops(bucket, key, user, existing, fields, rs[1..], steps[1..]);
      ResolutionRunStops(bucket, key, user, existing, fields, rs[0], steps[0]);
      ThenStopsAtFirstError(ResolutionRun(bucket, key, user, existing, fields, rs[0], steps[0]),
                            Resolved(bucket, key, user, existing, fields, rs[1..], steps[1..]));
    }
  }

  /** Every call the loop issues concerns the derivative of one of the resolutions. */
  lemma {:induction false} ResolvedTargets(bucket: string, key: string, user: Metadata, existing: seq<Tag>,
                                           fields: seq<string>, rs: seq<Resolution>, steps: seq<StepEnv>)
    requires forall f :: f in fields ==> f !in Reserved
    requires |steps| == |rs|
    ensures forall ev :: ev in Resolved(bucket, key, user, existing, fields, rs, steps).log ==>
      exists r :: r in rs && ForResolution(bucket, key, r, ev.op)
    decreases |rs|
  {
    if rs != [] {
      var first := ResolutionRun(bucket, key, user, existing, fields, rs[0], steps[0]);
      var rest := Resolved(bucket, key, user, existing, fields, rs[1..], steps[1..]);
      ResolvedTargets(bucket, key, user, existing, fields, rs[1..], steps[1..]);
      ResolutionRunTargets(bucket, key, user, existing, fields, rs[0], steps[0]);
      TargetsOfThen(bucket, key, rs, first, rest);
    }
  }

  /** The targets of a first iteration and of the remaining loop, joined. */
  lemma TargetsOfThen(bucket: string, key: string, rs: seq<Resolution>, first: Run<Op>, rest: Run<Op>)
    requires rs != []
    requires forall ev :: ev in first.log ==> ForResolution(bucket, key, rs[0], ev.op)
    requires forall ev :: ev in rest.log ==> exists r :: r in rs[1..] && ForResolution(bucket, key, r, ev.op)
    ensures forall ev :: ev in Then(first, rest).log ==> exists r :: r in rs && ForResolution(bucket, key, r, ev.op)
  {
    ThenEntries(first, rest);
    forall ev | ev in Then(first, rest).log ensures exists r :: r in rs && ForResolution(bucket, key, r, ev.op) {
      if ev in first.log {
        assert rs[0] in rs;
      } else {
        var r :| r in rs[1..] && ForResolution(bucket, key, r, ev.op);
        assert r in rs;
      }
    }
  }

  /** A block of four calls for the first resolution, followed by the blocks of the others. */
  lemma ConsBlocks(bucket: string, key: string, rs: seq<Resolution>, head: seq<Event<Op>>, tail: seq<Event<Op>>)
    requires rs != [] && |head| == 4 && CallsAt(bucket, key, rs[0], head, 0)
    requires |tail| == 4 * (|rs| - 1)
    requires forall j :: 0 <= j < |rs| - 1 ==> CallsAt(bucket, key, rs[1..][j], tail, 4 * j)
    ensures |head + tail| == 4 * |rs|
    ensures forall j :: 0 <= j < |rs| ==> CallsAt(bucket, key, rs[j], head + tail, 4 * j)
  {
    forall j | 0 <= j < |rs| ensures CallsAt(bucket, key, rs[j], head + tail, 4 * j) {
      if j == 0 {
        CallsExtend(bucket, key, rs[0], head, tail, 0);
      } else {
        assert rs[1..][j - 1] == rs[j];
        CallsShift(bucket, key, rs[j], head, tail, 4 * (j - 1));
      }
    }
  }

  /** When the loop succeeds, resolution `j` accounts for calls `4j` to `4j + 3`. */
  lemma {:induction false} ResolvedSucceeded(bucket: string, key: string, user: Metadata, existing: seq<Tag>,
                                             fields: seq<string>, rs: seq<Resolution>, steps: seq<StepEnv>)
    requires forall f :: f in fields ==> f !in Reserved
    requires |steps| == |rs|
    requires Resolved(bucket, key, user, existing, fields, rs, steps).ok
    ensures var log := Resolved(bucket, key, user, existing, fields, rs, steps).log;
      && |log| == 4 * |rs|
      && forall j :: 0 <= j < |rs| ==> CallsAt(bucket, key, rs[j], log, 4 * j)
    decreases |rs|
  {
    if rs != [] {
      var first := ResolutionRun(bucket, key, user, existing, fields, rs[0], steps[0]);
      var rest := Resolved(bucket, key, user, existing, fields, rs[1..], steps[1..]);
      assert first.ok && rest.ok;
      ResolutionRunSucceeded(bucket, key, user, existing, fields, rs[0], steps[0]);
      ResolvedSucceeded(bucket, key, user, existing, fields, rs[1..], steps[1..]);
      ConsBlocks(bucket, key, rs, first.log, rest.log);
    }
  }

  /** A returned copy of the source onto itself that writes `status: completed`. */
  predicate CompletesSource(bucket: string, key: string, e: Event<Op>) {
    e.Done? && e.op.CopyObject? && e.op.bucket == bucket && e.op.key == key
    && "status" in e.op.metadata && e.op.metadata["status"] == "completed"
  }

  /** No entry of `log` writes `completed` to the source. */
  predicate NoneCompletes(bucket: string, key: string, log: seq<Event<Op>>) {
    forall ev :: ev in log ==> !CompletesSource(bucket, key, ev)
  }

  /** After the four calls, the loop's calls; the final status write happens only when the loop ended normally. */
  lemma FinishShape(bucket: string, key: string, user: Metadata, loop: Run<Op>, markCompleted: bool)
    ensures var setup := Setup(bucket, key, user, MarkStatus(bucket, key, user, "processing"));
      var done := MarkStatus(bucket, key, user, "completed");
      var run := Finish(bucket, key, user, loop, markCompleted);
      && run.ok == (loop.ok && markCompleted)
      && run.log == if loop.ok then setup + loop.log + [if markCompleted then Done(done) else Failed(done)]
                    else setup + loop.log
  {
  }

  /** With a loop that stops at its first error, so does the whole block. */
  lemma FinishStops(bucket: string, key: string, user: Metadata, loop: Run<Op>, markCompleted: bool)
    requires StopsAtFirstError(loop)
    ensures StopsAtFirstError(Finish(bucket, key, user, loop, markCompleted))
  {
    var setup := Run(true, Setup(bucket, key, user, MarkStatus(bucket, key, user, "processing")));
    ThenStopsAtFirstError(setup, loop);
    ThenStopsAtFirstError(Then(setup, loop), Call(markCompleted, MarkStatus(bucket, key, user, "completed")));
  }

  /** The first four calls issue no put, and the third writes `processing` to the source. */
  lemma FinishMarksFirst(bucket: string, key: string, user: Metadata, loop: Run<Op>, markCompleted: bool)
    ensures var log := Finish(bucket, key, user, loop, markCompleted).log;
      && |log| >= 4 && log[2] == Done(MarkStatus(bucket, key, user, "processing"))
      && forall i :: 0 <= i < 4 ==> !log[i].op.PutObject?
  {
    var setup := Setup(bucket, key, user, MarkStatus(bucket, key, user, "processing"));
    var done := MarkStatus(bucket, key, user, "completed");
    var rest := if loop.ok then loop.log + [if markCompleted then Done(done) else Failed(done)] else loop.log;
    FinishShape(bucket, key, user, loop, markCompleted);
    var log := setup + rest;
    assert Finish(bucket, key, user, loop, markCompleted).log == log;
    forall i | 0 <= i < 4 ensures !log[i].op.PutObject? {
      assert log[i] == setup[i];
    }
  }

  /** With a loop that never writes `completed` to the source, only the final write can, and it does so when the block succeeds. */
  lemma FinishCompletes(bucket: string, key: string, user: Metadata, loop: Run<Op>, markCompleted: bool)
    requires NoneCompletes(bucket, key, loop.log)
    ensures var run := Finish(bucket, key, user, loop, markCompleted);
      && ((exists i :: 0 <= i < |run.log| && CompletesSource(bucket, key, run.log[i])) <==> run.ok)
      && (run.ok ==> CompletesSource(bucket, key, run.log[|run.log| - 1]))
  {
    var setup := Setup(bucket, key, user, MarkStatus(bucket, key, user, "processing"));
    FinishShape(bucket, key, user, loop, markCompleted);
    SetupNoneCompletes(bucket, key, user);
    NoneCompletesConcat(bucket, key, setup, loop.log);
    if loop.ok {
      var done := MarkStatus(bucket, key, user, "completed");
      CompletesOnlyLast(bucket, key, setup + loop.log, if markCompleted then Done(done) else Failed(done));
    }
  }

  /** A successful block: the four calls, the loop's blocks of four shifted past them, then `completed`. */
  lemma FinishSucceeded(bucket: string, key: string, user: Metadata, rs: seq<Resolution>, loop: Run<Op>, markCompleted: bool)
    requires Finish(bucket, key, user, loop, markCompleted).ok
    requires |loop.log| == 4 * |rs|
    requires forall j :: 0 <= j < |rs| ==> CallsAt(bucket, key, rs[j], loop.log, 4 * j)
    ensures var log := Finish(bucket, key, user, loop, markCompleted).log;
      && |log| == 4 + 4 * |rs| + 1
      && forall j :: 0 <= j < |rs| ==> CallsAt(bucket, key, rs[j], log, 4 + 4 * j)
  {
    var setup := Setup(bucket, key, user, MarkStatus(bucket, key, user, "processing"));
    FinishShape(bucket, key, user, loop, markCompleted);
    ShiftedBlocks(bucket, key, rs, setup, loop.log, Done(MarkStatus(bucket, key, user, "completed")));
  }

  /** The calls before the loop write `processing`, never `completed`. */
  lemma SetupNoneCompletes(bucket: string, key: string, user: Metadata)
    ensures NoneCompletes(bucket, key, Setup(bucket, key, user, MarkStatus(bucket, key, user, "processing")))
  {
  }

  /** Calls that concern derivatives never write to the source. */
  lemma DerivativesNoneComplete(bucket: string, key: string, rs: seq<Resolution>, log: seq<Event<Op>>)
    requires forall ev :: ev in log ==> exists r :: r in rs && ForResolution(bucket, key, r, ev.op)
    ensures NoneCompletes(bucket, key, log)
  {
    forall ev | ev in log ensures !CompletesSource(bucket, key, ev) {
      var r :| r in rs && ForResolution(bucket, key, r, ev.op);
    }
  }

  /** Where nothing before the last entry completes the source, some entry does exactly when the last one does. */
  lemma CompletesOnlyLast(bucket: string, key: string, front: seq<Event<Op>>, last: Event<Op>)
    requires NoneCompletes(bucket, key, front)
    ensures var log := front + [last];
      (exists i :: 0 <= i < |log| && CompletesSource(bucket, key, log[i])) <==> CompletesSource(bucket, key, last)
  {
    var log := front + [last];
    forall i | 0 <= i < |front| ensures !CompletesSource(bucket, key, log[i]) {
      assert log[i] == front[i] && front[i] in front;
    }
    assert log[|front|] == last;
  }

  /** A log none of whose entries completes the source. */
  lemma NoneCompletesConcat(bucket: string, key: string, a: seq<Event<Op>>, b: seq<Event<Op>>)
    requires NoneCompletes(bucket, key, a) && NoneCompletes(bucket, key, b)
    ensures NoneCompletes(bucket, key, a + b)
    ensures forall i :: 0 <= i < |a + b| ==> !CompletesSource(bucket, key, (a + b)[i])
  {
    forall ev | ev in a + b ensures ev in a || ev in b {
      var i :| 0 <= i < |a + b| && (a + b)[i] == ev;
      if i < |a| { assert a[i] == ev; } else { assert b[i - |a|] == ev; }
    }
    forall i | 0 <= i < |a + b| ensures !CompletesSource(bucket, key, (a + b)[i]) {
      assert (a + b)[i] in a + b;
    }
  }

  /** The loop's blocks of four, shifted past the four calls before the loop. */
  lemma ShiftedBlocks(bucket: string, key: string, rs: seq<Resolution>,
                      setup: seq<Event<Op>>, loopLog: seq<Event<Op>>, last: Event<Op>)
    requires |setup| == 4 && |loopLog| == 4 * |rs|
    requires forall j :: 0 <= j < |rs| ==> CallsAt(bucket, key, rs[j], loopLog, 4 * j)
    ensures var log := setup + loopLog + [last];
      && |log| == 4 + 4 * |rs| + 1
      && forall j :: 0 <= j < |rs| ==> CallsAt(bucket, key, rs[j], log, 4 + 4 * j)
  {
    forall j | 0 <= j < |rs| ensures CallsAt(bucket, key, rs[j], setup + loopLog + [last], 4 + 4 * j) {
      CallsShift(bucket, key, rs[j], setup, loopLog, 4 * j);
      CallsExtend(bucket, key, rs[j], setup + loopLog, [last], 4 + 4 * j);
    }
  }

  /** The calls of the `try` block stop at the first error. */
  lemma ProcessingStopsAtFirstError(bucket: string, key: string, fields: seq<string>, rs: seq<Resolution>, env: Env)
    requires |env.steps| == |rs|
    ensures StopsAtFirstError(Processing(bucket, key, fields, rs, env))
  {
    if env.getObject && env.headObject.Returned? && env.markProcessing && env.tagging.Returned? {
      var user := env.headObject.value;
      var existing := if env.tagging.value.Some? then env.tagging.value.value else [];
      ResolvedStops(bucket, key, user, existing, fields, rs, env.steps);
      FinishStops(bucket, key, user, Resolved(bucket, key, user, existing, fields, rs, env.steps), env.markCompleted);
    }
  }

  /**
   * `processing` is written to the source by the third call, and every
   * derivative put comes after the four calls before the loop.
   */
  lemma ProcessingMarksFirst(bucket: string, key: string, fields: seq<string>, rs: seq<Resolution>, env: Env)
    requires |env.steps| == |rs|
    ensures var log := Processing(bucket, key, fields, rs, env).log;
      forall i :: 0 <= i < |log| && log[i].op.PutObject? ==>
        3 < i && env.headObject.Returned? && log[2] == Done(MarkStatus(bucket, key, env.headObject.value, "processing"))
  {
    if env.getObject && env.headObject.Returned? && env.markProcessing && env.tagging.Returned? {
      var user := env.headObject.value;
      var existing := if env.tagging.value.Some? then env.tagging.value.value else [];
      FinishMarksFirst(bucket, key, user, Resolved(bucket, key, user, existing, fields, rs, env.steps), env.markCompleted);
    }
  }

  /** `completed` is written to the source exactly when the whole block succeeds, and by its last call. */
  lemma ProcessingCompletes(bucket: string, key: string, fields: seq<string>, rs: seq<Resolution>, env: Env)
    requires forall f :: f in fields ==> f !in Reserved
    requires |env.steps| == |rs|
    ensures var run := Processing(bucket, key, fields, rs, env);
      && ((exists i :: 0 <= i < |run.log| && CompletesSource(bucket, key, run.log[i])) <==> run.ok)
      && (run.ok ==> CompletesSource(bucket, key, run.log[|run.log| - 1]))
  {
    if env.getObject && env.headObject.Returned? && env.markProcessing && env.tagging.Returned? {
      var user := env.headObject.value;
      var existing := if env.tagging.value.Some? then env.tagging.value.value else [];
      var loop := Resolved(bucket, key, user, existing, fields, rs, env.steps);
      ResolvedTargets(bucket, key, user, existing, fields, rs, env.steps);
      DerivativesNoneComplete(bucket, key, rs, loop.log);
      FinishCompletes(bucket, key, user, loop, env.markCompleted);
    }
  }

  /** A successful block issues the four calls before the loop, four calls per resolution in order, then `completed`. */
  lemma ProcessingSucceeded(bucket: string, key: string, fields: seq<string>, rs: seq<Resolution>, env: Env)
    requires forall f :: f in fields ==> f !in Reserved
    requires |env.steps| == |rs|
    requires Processing(bucket, key, fields, rs, env).ok
    ensures var log := Processing(bucket, key, fields, rs, env).log;
      && |log| == 4 + 4 * |rs| + 1
      && forall j :: 0 <= j < |rs| ==> CallsAt(bucket, key, rs[j], log, 4 + 4 * j)
  {
    var user := env.headObject.value;
    var existing := if env.tagging.value.Some? then env.tagging.value.value else [];
    var loop := Resolved(bucket, key, user, existing, fields, rs, env.steps);
    FinishShape(bucket, key, user, loop, env.markCompleted);
    ResolvedSucceeded(bucket, key, user, existing, fields, rs, env.steps);
    FinishSucceeded(bucket, key, user, rs, loop, env.markCompleted);
  }

  /** No call of a failed invocation writes `completed` to the source; a skipped key issues no call. */
  lemma HandlerOutcome(bucket: string, rawKey: string, env: Env)
    requires |env.steps| == |Resolutions|
    ensures var inv := Expected(bucket, rawKey, env);
      && (inv.response == Rejected <==> DecodeKey(rawKey).None?)
      && (DecodeKey(rawKey).Some? && !IsOriginal(DecodeKey(rawKey).value) ==>
            inv.response == Http(200, SkippedBody) && inv.log == [])
      && (inv.response.Http? && inv.response.statusCode == 500 ==>
            && inv.log != [] && inv.log[|inv.log| - 1].Failed?
            && forall i :: 0 <= i < |inv.log| ==> !CompletesSource(bucket, DecodeKey(rawKey).value, inv.log[i]))
      && (inv.response == Http(200, SuccessBody) ==> |inv.log| == 25)
  {
    match DecodeKey(rawKey)
    case None =>
    case Some(key) =>
      if IsOriginal(key) {
        FieldsNotReserved();
        ProcessingStopsAtFirstError(bucket, key, MetadataFields, Resolutions, env);
        ProcessingCompletes(bucket, key, MetadataFields, Resolutions, env);
        if Processing(bucket, key, MetadataFields, Resolutions, env).ok {
          ProcessingSucceeded(bucket, key, MetadataFields, Resolutions, env);
        }
      }
  }

  /** One iteration of the handler's loop: placeholder put, transform, content put, tagging put. */
  method ProcessResolution(bucket: string, key: string, user: Metadata, existingTags: seq<Tag>,
                           fields: seq<string>, r: Resolution, e: StepEnv) returns (ok: bool, entries: seq<Event<Op>>)
    ensures Run(ok, entries) == ResolutionRun(bucket, key, user, existingTags, fields, r, e)
  {
    var newKey := DerivativeKey(key, r.suffix);
    var placeholder := PutObject(bucket, newKey, Empty, WebpType, PlaceholderMetadata(user, r.tag, key));
    if !e.placeholder {
      return false, [Failed(placeholder)];
    }
    if e.encoded.Threw? {
      return false, [Done(placeholder), Failed(Transform(r.width))];
    }
    var strings := CollectMetadataStrings(fields, e.encoded.value);
    var newTags := BuildTags(existingTags, r.tag, key, strings);
    var content := PutObject(bucket, newKey, Resized(r.width), WebpType,
                             FinalMetadata(user, r.tag, key, ToMap(strings)));
    entries := [Done(placeholder), Done(Transform(r.width))];
    if !e.content {
      return false, entries + [Failed(content)];
    }
    var tagging := PutObjectTagging(bucket, newKey, newTags);
    ok := e.tagging;
    entries := entries + [Done(content), if ok then Done(tagging) else Failed(tagging)];
  }

  /** The resolution loop of the handler; a thrown error leaves it. */
  method ResolveAll(bucket: string, key: string, user: Metadata, existingTags: seq<Tag>,
                    fields: seq<string>, rs: seq<Resolution>, steps: seq<StepEnv>) returns (ok: bool, log: seq<Event<Op>>)
    requires |steps| == |rs|
    ensures Run(ok, log) == Resolved(bucket, key, user, existingTags, fields, rs, steps)
  {
    log := [];
    var i := 0;
    assert rs[0..] == rs && steps[0..] == steps;
    while i < |rs|
      invariant 0 <= i <= |rs|
      invariant Then(Run(true, log), Resolved(bucket, key, user, existingTags, fields, rs[i..], steps[i..]))
             == Resolved(bucket, key, user, existingTags, fields, rs, steps)
    {
      var stepOk, entries := ProcessResolution(bucket, key, user, existingTags, fields, rs[i], steps[i]);
      ResolvedStep(bucket, key, user, existingTags, fields, rs, steps, i);
      ThenAssoc(Run(true, log), Run(stepOk, entries),
                Resolved(bucket, key, user, existingTags, fields, rs[i + 1..], steps[i + 1..]));
      log := log + entries;
      if !stepOk {
        return false, log;
      }
      i := i + 1;
    }
    return true, log;
  }

  /** The `try` block of the handler. */
  method ProcessOriginal(bucketName: string, key: string, fields: seq<string>, rs: seq<Resolution>, env: Env)
    returns (ok: bool, log: seq<Event<Op>>)
    requires |env.steps| == |rs|
    ensures Run(ok, log) == Processing(bucketName, key, fields, rs, env)
  {
    var get := GetObject(bucketName, key);
    if !env.getObject {
      return false, [Failed(get)];
    }
    var head := HeadObject(bucketName, key);
    if env.headObject.Threw? {
      return false, [Done(get), Failed(head)];
    }
    var user := env.headObject.value;
    var mark := MarkStatus(bucketName, key, user, "processing");
    if !env.markProcessing {
      return false, [Done(get), Done(head), Failed(mark)];
    }
    var getTags := GetObjectTagging(bucketName, key);
    if env.tagging.Threw? {
      return false, [Done(get), Done(head), Done(mark), Failed(getTags)];
    }
    var existingTags := if env.tagging.value.Some? then env.tagging.value.value else [];
    var setup := Setup(bucketName, key, user, mark);
    var resolvedOk, resolved := ResolveAll(bucketName, key, user, existingTags, fields, rs, env.steps);
    if !resolvedOk {
      return false, setup + resolved;
    }
    var done := MarkStatus(bucketName, key, user, "completed");
    ok := env.markCompleted;
    log := setup + resolved + [if ok then Done(done) else Failed(done)];
  }

  /** The handler. */
  method Handler(bucketName: string, rawKey: string, env: Env) returns (response: Response, log: seq<Event<Op>>)
    requires |env.steps| == |Resolutions|
    ensures Invocation(response, log) == Expected(bucketName, rawKey, env)
  {
    var decoded := DecodeKey(rawKey);
    if decoded.None? {
      return Rejected, [];
    }
    var key := decoded.value;
    if !IsOriginal(key) {
      return Http(200, SkippedBody), [];
    }
    var ok;
    ok, log := ProcessOriginal(bucketName, key, MetadataFields, Resolutions, env);
    response := if ok then Http(200, SuccessBody) else Http(500, ErrorBody);
  }
}
