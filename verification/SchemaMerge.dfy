/**
 The schema merger of the Python client's code generator: the definitions of many schema
 files go into one namespace keyed by title, and every reference is rewritten to follow.
 */
module SchemaMerge {
  import opened Basics

  datatype Json = Null | Bool(b: bool) | Num(digits: string) | Str(s: string) | Arr(items: Items) | Obj(fields: Fields)
  datatype Items = Nil | Cons(head: Json, tail: Items)
  datatype Fields = End | Entry(key: string, value: Json, rest: Fields)

  const Prefix := "#/$defs/"

  function Lookup(fs: Fields, key: string): Option<Json> {
    match fs
    case End => None
    case Entry(k, v, rest) => if k == key then Some(v) else Lookup(rest, key)
  }

  /** The fields without those keys. */
  function Drop(fs: Fields, keys: set<string>): Fields {
    match fs
    case End => End
    case Entry(k, v, rest) => if k in keys then Drop(rest, keys) else Entry(k, v, Drop(rest, keys))
  }

  /** A dict assignment: replaces the field or appends it. */
  function Set(fs: Fields, key: string, value: Json): Fields {
    match fs
    case End => Entry(key, value, End)
    case Entry(k, v, rest) => if k == key then Entry(k, value, rest) else Entry(k, v, Set(rest, key, value))
  }

  // ---------------------------------------------------------------- references

  predicate IsRef(key: string, v: Json) { key == "$ref" && v.Str? && Prefix <= v.s }

  /** What a reference names. */
  function Target(v: Json): string
    requires v.Str? && Prefix <= v.s
  {
    v.s[|Prefix|..]
  }

  function RefTo(name: string): Json { Str(Prefix + name) }

  lemma TargetOfRef(name: string)
    ensures IsRef("$ref", RefTo(name)) && Target(RefTo(name)) == name
  {}

  /** A name the file does not define stays as it is. */
  function Renamed(rename: map<string, string>, name: string): string { if name in rename then rename[name] else name }

  function Walk(node: Json, rename: map<string, string>): Json {
    match node
    case Obj(fields) => Obj(WalkFields(fields, rename))
    case Arr(items) => Arr(WalkItems(items, rename))
    case _ => node
  }

  function WalkItems(items: Items, rename: map<string, string>): Items {
    match items
    case Nil => Nil
    case Cons(head, tail) => Cons(Walk(head, rename), WalkItems(tail, rename))
  }

  function WalkFields(fs: Fields, rename: map<string, string>): Fields {
    match fs
    case End => End
    case Entry(k, v, rest) =>
      Entry(k, if IsRef(k, v) then RefTo(Renamed(rename, Target(v))) else Walk(v, rename), WalkFields(rest, rename))
  }

  /** Every string under a "$ref" names one of `names`, exactly. */
  predicate Closed(node: Json, names: set<string>) {
    match node
    case Obj(fields) => ClosedFields(fields, names)
    case Arr(items) => ClosedItems(items, names)
    case _ => true
  }

  predicate ClosedItems(items: Items, names: set<string>) {
    match items
    case Nil => true
    case Cons(head, tail) => Closed(head, names) && ClosedItems(tail, names)
  }

  predicate ClosedFields(fs: Fields, names: set<string>) {
    match fs
    case End => true
    case Entry(k, v, rest) =>
      && (if k == "$ref" && v.Str? then IsRef(k, v) && Target(v) in names else Closed(v, names))
      && ClosedFields(rest, names)
  }

  // ---------------------------------------------------------------- the files

  /** A definition, with the title it goes by in the merged document. */
  datatype Def = Def(name: string, title: string, body: Fields)

  /** A schema file, by its stem and its parsed content. */
  datatype File = File(stem: string, raw: Json)

  function Mantissa(digits: string): string {
    if digits == "" || digits[0] == 'e' || digits[0] == 'E' then "" else [digits[0]] + Mantissa(digits[1..])
  }

  predicate NonZero(text: string) { exists i: nat :: i < |text| && !ZeroSign(text[i]) }

  predicate ZeroSign(c: char) { c == '0' || c == '.' || c == '-' }

  /** Python's truth value. */
  predicate Truthy(j: Json) {
    match j
    case Null => false
    case Bool(b) => b
    case Num(digits) => NonZero(Mantissa(digits))
    case Str(s) => s != ""
    case Arr(items) => items.Cons?
    case Obj(fields) => fields.Entry?
  }

  /** Character i comes before the exponent. */
  predicate Leading(digits: string, i: nat) { i < |digits| && forall k | 0 <= k <= i :: digits[k] != 'e' && digits[k] != 'E' }

  /** Nothing but zeros before the exponent. */
  ghost predicate IsZero(digits: string) { forall i: nat | Leading(digits, i) :: ZeroSign(digits[i]) }

  lemma {:induction false} MantissaExact(digits: string, c: char)
    ensures c in Mantissa(digits) <==> exists i: nat :: Leading(digits, i) && digits[i] == c
  {
    if digits != "" && digits[0] != 'e' && digits[0] != 'E' {
      var rest := digits[1..];
      MantissaExact(rest, c);
      assert Leading(digits, 0);
      if i: nat :| Leading(rest, i) && rest[i] == c {
        assert forall k | 0 < k <= i + 1 :: digits[k] == rest[k - 1];
        assert Leading(digits, i + 1) && digits[i + 1] == c;
      }
      if i: nat :| Leading(digits, i) && digits[i] == c {
        assert forall k | 0 <= k < |rest| :: rest[k] == digits[k + 1];
        if i > 0 { assert Leading(rest, i - 1) && rest[i - 1] == c; }
      }
    } else {
      forall i: nat ensures !Leading(digits, i) { if i < |digits| { assert digits[0] == 'e' || digits[0] == 'E'; } }
    }
  }

  /** Only these count as false. */
  lemma FalsyExactly(j: Json)
    ensures !Truthy(j) <==> j == Null || j == Bool(false) || j == Str("") || j == Arr(Nil) || j == Obj(End) || (j.Num? && IsZero(j.digits))
  {
    match j
    case Null =>
    case Bool(b) =>
    case Num(digits) => ZeroExactly(digits);
    case Str(text) =>
    case Arr(items) => assert items.Nil? <==> items == Nil;
    case Obj(fields) => assert fields.End? <==> fields == End;
  }

  lemma ZeroExactly(digits: string)
    ensures IsZero(digits) <==> !NonZero(Mantissa(digits))
  {
    if i: nat :| i < |Mantissa(digits)| && !ZeroSign(Mantissa(digits)[i]) {
      MantissaExact(digits, Mantissa(digits)[i]);
    }
    if i: nat :| Leading(digits, i) && !ZeroSign(digits[i]) {
      MantissaExact(digits, digits[i]);
    }
  }

  /** `show` is Python's str of a value that is not text. */
  type Show = Json -> string

  function TitleOr(show: Show, fs: Fields, fallback: string): string {
    var t := Lookup(fs, "title");
    if t.None? || !Truthy(t.value) then fallback else if t.value.Str? then t.value.s else show(t.value)
  }

  /** The definitions of an object, None if one of them is not an object itself. */
  function DefList(show: Show, fs: Fields, fileTitle: string): Option<seq<Def>> {
    match fs
    case End => Some([])
    case Entry(k, v, rest) =>
      var defs := DefList(show, rest, fileTitle);
      if !v.Obj? || defs.None? then None else Some([Def(k, TitleOr(show, v.fields, fileTitle + k), v.fields)] + defs.value)
  }

  /** Anything that counts as false is no definitions; anything else must be an object. */
  function LocalDefs(show: Show, raw: Fields, fileTitle: string): Option<seq<Def>> {
    var d := Lookup(raw, "$defs");
    if d.None? || !Truthy(d.value) then Some([])
    else if d.value.Obj? then DefList(show, d.value.fields, fileTitle)
    else None
  }

  function HasOneOf(raw: Fields): bool { Lookup(raw, "oneOf").Some? && Lookup(raw, "oneOf").value.Arr? }

  /** What the merger takes from a file: its title, its definitions, and what it contributes itself, if anything. */
  datatype Source = Source(title: string, defs: seq<Def>, flat: bool, top: Fields)

  /** A file with "oneOf" and definitions contributes its definitions only. None is a file the merger fails on. */
  function Read(show: Show, f: File): Option<Source> {
    if !f.raw.Obj? then None
    else
      var raw := f.raw.fields;
      var title := TitleOr(show, raw, f.stem);
      var defs := LocalDefs(show, raw, title);
      if defs.None? then None
      else Some(Source(title, defs.value, !(HasOneOf(raw) && defs.value != []), Drop(raw, {"$defs", "$schema", "$id"})))
  }

  // ---------------------------------------------------------------- what is read, entry by entry

  /** The keys of an object, in order. */
  function Keys(fs: Fields): seq<string> { if fs.End? then [] else [fs.key] + Keys(fs.rest) }

  /** The name an object goes by: its title if that counts as true, else the fallback. */
  predicate Titled(show: Show, fs: Fields, fallback: string, title: string) {
    match Lookup(fs, "title")
    case None => title == fallback
    case Some(v) => if !Truthy(v) then title == fallback else if v.Str? then title == v.s else title == show(v)
  }

  lemma {:induction false} DropExact(fs: Fields, keys: set<string>)
    ensures forall k :: Lookup(Drop(fs, keys), k) == if k in keys then None else Lookup(fs, k)
    ensures forall k | k in Keys(Drop(fs, keys)) :: k !in keys
  {
    if fs.Entry? { DropExact(fs.rest, keys); }
  }

  /** Definition i of a list made from an object. */
  ghost predicate DefOf(show: Show, fs: Fields, fileTitle: string, defs: seq<Def>) {
    && |defs| == |Keys(fs)|
    && forall i | 0 <= i < |defs| ::
         && defs[i].name == Keys(fs)[i] && Member(fs, i).Obj? && defs[i].body == Member(fs, i).fields
         && Titled(show, defs[i].body, fileTitle + defs[i].name, defs[i].title)
  }

  /** The value of entry i. */
  function Member(fs: Fields, i: nat): Json {
    if fs.End? then Null else if i == 0 then fs.value else Member(fs.rest, i - 1)
  }

  /** Every value of the object is an object. */
  predicate ObjectsOnly(fs: Fields) { forall i: nat | i < |Keys(fs)| :: Member(fs, i).Obj? }

  lemma ObjectsOnlyNext(fs: Fields)
    requires fs.Entry?
    ensures ObjectsOnly(fs) <==> fs.value.Obj? && ObjectsOnly(fs.rest)
  {
    assert |Keys(fs)| == |Keys(fs.rest)| + 1 && Member(fs, 0) == fs.value;
    forall i: nat | i < |Keys(fs.rest)| ensures Member(fs, i + 1) == Member(fs.rest, i) {}
    if ObjectsOnly(fs) {
      forall i: nat | i < |Keys(fs.rest)| ensures Member(fs.rest, i).Obj? { assert Member(fs, i + 1).Obj?; }
    }
    if fs.value.Obj? && ObjectsOnly(fs.rest) {
      forall i: nat | i < |Keys(fs)| ensures Member(fs, i).Obj? { if i > 0 { assert Member(fs.rest, i - 1).Obj?; } }
    }
  }

  lemma {:induction false} DefListExact(show: Show, fs: Fields, fileTitle: string)
    ensures DefList(show, fs, fileTitle).Some? <==> ObjectsOnly(fs)
    ensures DefList(show, fs, fileTitle).Some? ==> DefOf(show, fs, fileTitle, DefList(show, fs, fileTitle).value)
  {
    if fs.Entry? {
      DefListExact(show, fs.rest, fileTitle);
      ObjectsOnlyNext(fs);
      if DefList(show, fs, fileTitle).Some? {
        DefOfEntry(show, fs, fileTitle, DefList(show, fs.rest, fileTitle).value);
      }
    }
  }

  lemma DefOfEntry(show: Show, fs: Fields, fileTitle: string, rest: seq<Def>)
    requires fs.Entry? && fs.value.Obj? && DefOf(show, fs.rest, fileTitle, rest)
    ensures DefOf(show, fs, fileTitle, [Def(fs.key, TitleOr(show, fs.value.fields, fileTitle + fs.key), fs.value.fields)] + rest)
  {
    var all := [Def(fs.key, TitleOr(show, fs.value.fields, fileTitle + fs.key), fs.value.fields)] + rest;
    forall i: nat | i < |all|
      ensures all[i].name == Keys(fs)[i] && Member(fs, i).Obj? && all[i].body == Member(fs, i).fields
      ensures Titled(show, all[i].body, fileTitle + all[i].name, all[i].title)
    {
      if i > 0 { assert all[i] == rest[i - 1] && Keys(fs)[i] == Keys(fs.rest)[i - 1] && Member(fs, i) == Member(fs.rest, i - 1); }
    }
  }

  /** The object under "$defs", if it is there and not empty. */
  function DefsObject(raw: Fields): Option<Fields> {
    match Lookup(raw, "$defs")
    case Some(Obj(fs)) => if fs.Entry? then Some(fs) else None
    case _ => None
  }

  /** Something else than an object counts as definitions. */
  predicate BadDefs(raw: Fields) { Lookup(raw, "$defs").Some? && Truthy(Lookup(raw, "$defs").value) && !Lookup(raw, "$defs").value.Obj? }

  /**
   What the merger takes from a file, off its own JSON: its title, the members of "$defs" in
   order under their names, and the top object without "$defs", "$schema" and "$id", which is
   written unless the file has both a "oneOf" list and definitions.
   */
  lemma ReadExactly(show: Show, f: File)
    ensures !f.raw.Obj? ==> Read(show, f).None?
    ensures f.raw.Obj? ==>
            var raw := f.raw.fields;
            Read(show, f).Some? <==>
            && !BadDefs(raw)
            && (DefsObject(raw).Some? ==> ObjectsOnly(DefsObject(raw).value))
    ensures Read(show, f).Some? ==>
              var raw, s := f.raw.fields, Read(show, f).value;
              && Titled(show, raw, f.stem, s.title)
              && (if DefsObject(raw).Some? then DefOf(show, DefsObject(raw).value, s.title, s.defs) else s.defs == [])
              && (s.flat <==> !(HasOneOf(raw) && s.defs != []))
              && (forall k :: Lookup(s.top, k) == if k in {"$defs", "$schema", "$id"} then None else Lookup(raw, k))
  {
    if f.raw.Obj? {
      var raw := f.raw.fields;
      DropExact(raw, {"$defs", "$schema", "$id"});
      if DefsObject(raw).Some? { DefListExact(show, DefsObject(raw).value, TitleOr(show, raw, f.stem)); }
    }
  }

  predicate Readable(show: Show, paths: seq<File>) { forall f | f in paths :: Read(show, f).Some? }

  function Sources(show: Show, paths: seq<File>): (files: seq<Source>)
    requires Readable(show, paths)
    ensures |files| == |paths| && forall i | 0 <= i < |paths| :: Some(files[i]) == Read(show, paths[i])
  {
    seq(|paths|, i requires 0 <= i < |paths| => assert paths[i] in paths; Read(show, paths[i]).value)
  }

  function RenameOf(defs: seq<Def>): (r: map<string, string>)
    ensures forall d | d in defs :: d.name in r
  {
    if defs == [] then map[]
    else
      var d := defs[|defs| - 1];
      RenameOf(defs[..|defs| - 1])[d.name := d.title]
  }

  /** A definition that may be emitted: its title, its fields, and the renaming of its file. */
  datatype Candidate = Candidate(title: string, body: Fields, file: Source)

  function Renames(f: Source): map<string, string> { RenameOf(f.defs) }

  function DefCandidate(f: Source, d: Def): Candidate
    requires d in f.defs
  {
    Candidate(Renames(f)[d.name], Drop(d.body, {"$defs"}), f)
  }

  function TopCandidate(f: Source): Candidate { Candidate(f.title, f.top, f) }

  function DefCandidates(f: Source): (r: seq<Candidate>)
    ensures |r| == |f.defs| && forall i | 0 <= i < |r| :: r[i] == DefCandidate(f, f.defs[i])
  {
    seq(|f.defs|, i requires 0 <= i < |f.defs| => DefCandidate(f, f.defs[i]))
  }

  function FileCandidates(f: Source): seq<Candidate> { DefCandidates(f) + (if f.flat then [TopCandidate(f)] else []) }

  function Candidates(files: seq<Source>): seq<Candidate> {
    if files == [] then [] else Candidates(files[..|files| - 1]) + FileCandidates(files[|files| - 1])
  }

  /** The candidates of a file are its definitions in order, without definitions of their own, then its top object if that is written. */
  lemma CandidatesOf(f: Source)
    ensures |FileCandidates(f)| == |f.defs| + (if f.flat then 1 else 0)
    ensures forall i | 0 <= i < |f.defs| ::
              && FileCandidates(f)[i].file == f && FileCandidates(f)[i].title == Renames(f)[f.defs[i].name]
              && forall k :: Lookup(FileCandidates(f)[i].body, k) == if k == "$defs" then None else Lookup(f.defs[i].body, k)
    ensures f.flat ==> FileCandidates(f)[|f.defs|] == Candidate(f.title, f.top, f)
  {
    forall i | 0 <= i < |f.defs|
      ensures forall k :: Lookup(FileCandidates(f)[i].body, k) == if k == "$defs" then None else Lookup(f.defs[i].body, k)
    {
      DropExact(f.defs[i].body, {"$defs"});
    }
  }

  /** Files are gone through in order. */
  lemma {:induction false} CandidatesInOrder(files: seq<Source>, more: seq<Source>)
    ensures Candidates(files + more) == Candidates(files) + Candidates(more)
    ensures forall f :: Candidates([f]) == FileCandidates(f)
  {
    forall f ensures Candidates([f]) == FileCandidates(f) { assert [f][..0] == []; }
    if more == [] {
      assert files + more == files;
    } else {
      CandidatesInOrder(files, more[..|more| - 1]);
      assert (files + more)[..|files + more| - 1] == files + more[..|more| - 1];
    }
  }

  /** A local name goes by the title of the last definition that has it. */
  lemma {:induction false} RenameExact(defs: seq<Def>, i: nat)
    requires i < |defs| && forall j | i < j < |defs| :: defs[j].name != defs[i].name
    ensures RenameOf(defs)[defs[i].name] == defs[i].title
  {
    var init, last := defs[..|defs| - 1], defs[|defs| - 1];
    if i < |defs| - 1 { RenameExact(init, i); }
  }

  /** What is written for a candidate. */
  function Emitted(c: Candidate): Fields { Set(WalkFields(c.body, Renames(c.file)), "title", Str(c.title)) }

  // ---------------------------------------------------------------- the merge

  /** A candidate is written unless its title is taken. */
  function Taken(m: map<string, Fields>, c: Candidate): map<string, Fields> {
    if c.title in m then m else m[c.title := Emitted(c)]
  }

  function Merge(cs: seq<Candidate>): map<string, Fields> {
    if cs == [] then map[] else Taken(Merge(cs[..|cs| - 1]), cs[|cs| - 1])
  }

  lemma MergeNext(cs: seq<Candidate>, c: Candidate)
    ensures Merge(cs + [c]) == Taken(Merge(cs), c)
  {
    assert (cs + [c])[..|cs|] == cs;
  }

  method EmitOnce(merged0: map<string, Fields>, seen0: set<string>, title: string, body: Fields, rename: map<string, string>)
    returns (merged: map<string, Fields>, seen: set<string>)
    requires seen0 == merged0.Keys
    ensures merged == if title in merged0 then merged0 else merged0[title := Set(WalkFields(body, rename), "title", Str(title))]
    ensures seen == merged.Keys
  {
    merged, seen := merged0, seen0;
    if title in seen { return; }
    seen := seen + {title};
    var model := WalkFields(body, rename);
    merged := merged[title := Set(model, "title", Str(title))];
  }

  lemma MergeDef(f: Source, before: seq<Candidate>, i: nat)
    requires i < |f.defs|
    ensures var m, title := Merge(before + DefCandidates(f)[..i]), Renames(f)[f.defs[i].name];
            Merge(before + DefCandidates(f)[..i + 1]) ==
            if title in m then m else m[title := Set(WalkFields(Drop(f.defs[i].body, {"$defs"}), Renames(f)), "title", Str(title))]
  {
    var all := DefCandidates(f);
    MergeNext(before + all[..i], all[i]);
    assert before + all[..i + 1] == before + all[..i] + [all[i]];
  }

  /** The definitions of one file. */
  method MergeDefs(f: Source, merged0: map<string, Fields>, seen0: set<string>, ghost before: seq<Candidate>)
    returns (merged: map<string, Fields>, seen: set<string>)
    requires merged0 == Merge(before) && seen0 == merged0.Keys
    ensures merged == Merge(before + DefCandidates(f)) && seen == merged.Keys
  {
    merged, seen := merged0, seen0;
    var defs, rename := f.defs, Renames(f);
    ghost var all := DefCandidates(f);
    assert before + all[..0] == before;
    for i := 0 to |defs|
      invariant merged == Merge(before + all[..i]) && seen == merged.Keys
    {
      MergeDef(f, before, i);
      merged, seen := EmitOnce(merged, seen, rename[defs[i].name], Drop(defs[i].body, {"$defs"}), rename);
    }
    assert all[..|defs|] == all;
  }

  predicate IsMerge(merged: map<string, Fields>, files: seq<Source>) { merged == Merge(Candidates(files)) }

  /** One file: its definitions, then its flattened top object. */
  method MergeFile(f: Source, merged0: map<string, Fields>, seen0: set<string>, ghost files: seq<Source>)
    returns (merged: map<string, Fields>, seen: set<string>)
    requires IsMerge(merged0, files) && seen0 == merged0.Keys
    ensures IsMerge(merged, files + [f]) && seen == merged.Keys
  {
    CandidatesNext(files, f);
    merged, seen := MergeDefs(f, merged0, seen0, Candidates(files));
    if f.flat {
      MergeNext(Candidates(files) + DefCandidates(f), TopCandidate(f));
      merged, seen := EmitOnce(merged, seen, f.title, f.top, Renames(f));
    }
  }

  /** Every file that can be read is merged in order; the merger fails exactly when one cannot. */
  method BuildMergedSchema(show: Show, paths: seq<File>) returns (r: Option<map<string, Fields>>)
    ensures r.Some? <==> Readable(show, paths)
    ensures r.Some? ==> r.value == Merge(Candidates(Sources(show, paths)))
  {
    ghost var files: seq<Source> := [];
    var merged := map[];
    var seen: set<string> := {};
    for n := 0 to |paths|
      invariant AllRead(show, paths[..n], files)
      invariant IsMerge(merged, files) && seen == merged.Keys
    {
      var source := Read(show, paths[n]);
      if source.None? {
        assert paths[n] in paths;
        return None;
      }
      merged, seen := MergeFile(source.value, merged, seen, files);
      AllReadNext(show, paths, files, source.value);
      files := files + [source.value];
    }
    assert paths[..|paths|] == paths;
    AllReadIsSources(show, paths, files);
    r := Some(merged);
  }

  ghost predicate AllRead(show: Show, paths: seq<File>, files: seq<Source>) {
    |files| == |paths| && forall i | 0 <= i < |paths| :: Some(files[i]) == Read(show, paths[i])
  }

  lemma AllReadNext(show: Show, paths: seq<File>, files: seq<Source>, f: Source)
    requires |files| < |paths| && AllRead(show, paths[..|files|], files) && Read(show, paths[|files|]) == Some(f)
    ensures AllRead(show, paths[..|files| + 1], files + [f])
  {
    var n := |files|;
    forall i | 0 <= i < n ensures Some(files[i]) == Read(show, paths[i]) { assert paths[..n][i] == paths[i]; }
  }

  lemma AllReadIsSources(show: Show, paths: seq<File>, files: seq<Source>)
    requires AllRead(show, paths, files)
    ensures Readable(show, paths) && files == Sources(show, paths)
  {
    forall f | f in paths ensures Read(show, f).Some? {
      var i :| 0 <= i < |paths| && paths[i] == f;
      assert Some(files[i]) == Read(show, paths[i]);
    }
  }

  lemma CandidatesNext(files: seq<Source>, f: Source)
    ensures var before := Candidates(files);
            Candidates(files + [f]) == if f.flat then before + DefCandidates(f) + [TopCandidate(f)] else before + DefCandidates(f)
  {
    var before := Candidates(files);
    assert (files + [f])[..|files|] == files;
    assert DefCandidates(f) + [] == DefCandidates(f);
    assert before + (DefCandidates(f) + [TopCandidate(f)]) == before + DefCandidates(f) + [TopCandidate(f)];
  }

  /** The candidate a title is written from. */
  ghost function FirstOf(cs: seq<Candidate>, title: string): Option<Candidate> {
    if cs == [] then None
    else if cs[0].title == title then Some(cs[0])
    else FirstOf(cs[1..], title)
  }

  lemma {:induction false} FirstOfIs(cs: seq<Candidate>, title: string)
    ensures FirstOf(cs, title).Some? <==> exists c | c in cs :: c.title == title
    ensures FirstOf(cs, title).Some? ==> FirstOf(cs, title).value in cs && FirstOf(cs, title).value.title == title
  {
    if cs != [] {
      FirstOfIs(cs[1..], title);
      assert cs == [cs[0]] + cs[1..];
    }
  }

  lemma {:induction false} FirstOfNext(cs: seq<Candidate>, c: Candidate, title: string)
    ensures FirstOf(cs + [c], title) ==
            if FirstOf(cs, title).Some? then FirstOf(cs, title) else if c.title == title then Some(c) else None
  {
    if cs != [] {
      assert (cs + [c])[1..] == cs[1..] + [c];
      FirstOfNext(cs[1..], c, title);
    }
  }

  /** Each title is there once, as its first candidate wrote it. */
  lemma {:induction false} FirstWins(cs: seq<Candidate>, title: string)
    ensures title in Merge(cs) <==> FirstOf(cs, title).Some?
    ensures title in Merge(cs) ==> Merge(cs)[title] == Emitted(FirstOf(cs, title).value)
  {
    if cs != [] {
      var init, last := cs[..|cs| - 1], cs[|cs| - 1];
      FirstWins(init, title);
      FirstOfNext(init, last, title);
      assert cs == init + [last];
    }
  }

  /** The candidate that wins a title. */
  lemma Winner(cs: seq<Candidate>, d: Candidate) returns (c: Candidate)
    requires d in cs
    ensures c in cs && c.title == d.title && d.title in Merge(cs) && Merge(cs)[d.title] == Emitted(c)
  {
    FirstWins(cs, d.title);
    FirstOfIs(cs, d.title);
    c := FirstOf(cs, d.title).value;
  }

  // ---------------------------------------------------------------- references stay closed

  lemma {:induction false} WalkCloses(node: Json, rename: map<string, string>, titles: set<string>)
    requires Closed(node, rename.Keys) && rename.Values <= titles
    ensures Closed(Walk(node, rename), titles)
    decreases node
  {
    match node
    case Obj(fields) => WalkFieldsCloses(fields, rename, titles);
    case Arr(items) => WalkItemsCloses(items, rename, titles);
    case _ =>
  }

  lemma {:induction false} WalkItemsCloses(items: Items, rename: map<string, string>, titles: set<string>)
    requires ClosedItems(items, rename.Keys) && rename.Values <= titles
    ensures ClosedItems(WalkItems(items, rename), titles)
    decreases items
  {
    if items.Cons? {
      WalkCloses(items.head, rename, titles);
      WalkItemsCloses(items.tail, rename, titles);
    }
  }

  lemma {:induction false} WalkFieldsCloses(fs: Fields, rename: map<string, string>, titles: set<string>)
    requires ClosedFields(fs, rename.Keys) && rename.Values <= titles
    ensures ClosedFields(WalkFields(fs, rename), titles)
    decreases fs
  {
    if fs.Entry? {
      WalkFieldsCloses(fs.rest, rename, titles);
      if IsRef(fs.key, fs.value) {
        TargetOfRef(rename[Target(fs.value)]);
      } else {
        WalkCloses(fs.value, rename, titles);
      }
    }
  }

  lemma {:induction false} SetTitleCloses(fs: Fields, title: string, names: set<string>)
    requires ClosedFields(fs, names)
    ensures ClosedFields(Set(fs, "title", Str(title)), names) && Lookup(Set(fs, "title", Str(title)), "title") == Some(Str(title))
  {
    if fs.Entry? { SetTitleCloses(fs.rest, title, names); }
  }

  lemma {:induction false} RenameTitles(defs: seq<Def>)
    ensures forall n | n in RenameOf(defs) :: exists d | d in defs :: d.name == n
  {
    if defs != [] {
      RenameTitles(defs[..|defs| - 1]);
      assert defs == defs[..|defs| - 1] + [defs[|defs| - 1]];
    }
  }

  lemma {:induction false} CandidatesOfFile(files: seq<Source>, f: Source)
    requires f in files
    ensures forall c | c in FileCandidates(f) :: c in Candidates(files)
  {
    var init, last := files[..|files| - 1], files[|files| - 1];
    assert files == init + [last];
    if f != last { CandidatesOfFile(init, f); }
  }

  lemma FileOfCandidate(f: Source)
    ensures forall c | c in FileCandidates(f) :: c.file == f
  {
    forall c | c in FileCandidates(f) ensures c.file == f {
      if c in DefCandidates(f) { var i :| 0 <= i < |f.defs| && DefCandidates(f)[i] == c; }
    }
  }

  lemma {:induction false} CandidateHasFile(files: seq<Source>, c: Candidate)
    requires c in Candidates(files)
    ensures c.file in files
  {
    var init, last := files[..|files| - 1], files[|files| - 1];
    if c in Candidates(init) {
      CandidateHasFile(init, c);
    } else {
      FileOfCandidate(last);
    }
  }

  /** Whatever a file renames to is a title of the merged document. */
  lemma RenamesAreTitles(files: seq<Source>, f: Source)
    requires f in files
    ensures Renames(f).Values <= Merge(Candidates(files)).Keys
  {
    forall t | t in Renames(f).Values ensures t in Merge(Candidates(files)) {
      var n :| n in Renames(f) && Renames(f)[n] == t;
      RenameTitles(f.defs);
      var d :| d in f.defs && d.name == n;
      CandidatesOfFile(files, f);
      var i :| 0 <= i < |f.defs| && f.defs[i] == d;
      assert DefCandidates(f)[i] in FileCandidates(f);
      FirstOfIs(Candidates(files), t);
      FirstWins(Candidates(files), t);
    }
  }

  /** Every "$ref" of a file names one of the file's own definitions. */
  ghost predicate OwnRefs(files: seq<Source>) {
    forall c | c in Candidates(files) :: ClosedFields(c.body, Renames(c.file).Keys)
  }

  /**
   The merged document is closed: under every key stands a definition with that title, and
   every "$ref" in it names a key.
   */
  lemma MergedIsClosed(files: seq<Source>, title: string)
    requires OwnRefs(files) && title in Merge(Candidates(files))
    ensures var merged := Merge(Candidates(files));
            ClosedFields(merged[title], merged.Keys) && Lookup(merged[title], "title") == Some(Str(title))
  {
    var cs := Candidates(files);
    FirstWins(cs, title);
    FirstOfIs(cs, title);
    var c := FirstOf(cs, title).value;
    CandidateHasFile(files, c);
    RenamesAreTitles(files, c.file);
    WalkFieldsCloses(c.body, Renames(c.file), Merge(cs).Keys);
    SetTitleCloses(WalkFields(c.body, Renames(c.file)), title, Merge(cs).Keys);
  }

  // ---------------------------------------------------------------- meaning preserved

  /** A definition up to its title. */
  function Untitled(fs: Fields): Fields { Drop(fs, {"title"}) }

  /** References followed n levels deep; below that they are cut off. */
  function Unfold(n: nat, node: Json, env: map<string, Fields>): Json
    decreases n, 1, node
  {
    match node
    case Obj(fields) => Obj(UnfoldFields(n, fields, env))
    case Arr(items) => Arr(UnfoldItems(n, items, env))
    case _ => node
  }

  function UnfoldItems(n: nat, items: Items, env: map<string, Fields>): Items
    decreases n, 1, items
  {
    match items
    case Nil => Nil
    case Cons(head, tail) => Cons(Unfold(n, head, env), UnfoldItems(n, tail, env))
  }

  function UnfoldFields(n: nat, fs: Fields, env: map<string, Fields>): Fields
    decreases n, 1, fs
  {
    match fs
    case End => End
    case Entry(k, v, rest) =>
      Entry(k, if IsRef(k, v) then Follow(n, Target(v), env) else Unfold(n, v, env), UnfoldFields(n, rest, env))
  }

  function Follow(n: nat, name: string, env: map<string, Fields>): Json
    decreases n, 0
  {
    if n == 0 then Null else if name in env then Obj(UnfoldFields(n - 1, Untitled(env[name]), env)) else Null
  }

  /** The definitions of one file, by local name. */
  function EnvOf(defs: seq<Def>): (env: map<string, Fields>)
    ensures forall d | d in defs :: d.name in env
  {
    if defs == [] then map[]
    else
      var d := defs[|defs| - 1];
      EnvOf(defs[..|defs| - 1])[d.name := Drop(d.body, {"$defs"})]
  }

  function Env(f: Source): map<string, Fields> { EnvOf(f.defs) }

  /** What a candidate means in its own file. */
  function Meaning(n: nat, c: Candidate): Fields { UnfoldFields(n, Untitled(c.body), Env(c.file)) }

  /** Definitions that share a title mean the same. */
  ghost predicate SameTitleSameMeaning(cs: seq<Candidate>) {
    forall n: nat, c, d | c in cs && d in cs && c.title == d.title :: Meaning(n, c) == Meaning(n, d)
  }

  lemma {:induction false} DropWalk(fs: Fields, keys: set<string>, rename: map<string, string>)
    ensures Drop(WalkFields(fs, rename), keys) == WalkFields(Drop(fs, keys), rename)
  {
    if fs.Entry? { DropWalk(fs.rest, keys, rename); }
  }

  /** Setting the title changes nothing but the title. */
  lemma {:induction false} UntitledSet(fs: Fields, title: string)
    ensures Untitled(Set(fs, "title", Str(title))) == Untitled(fs)
  {
    if fs.Entry? && fs.key != "title" { UntitledSet(fs.rest, title); }
  }

  lemma {:induction false} DropCloses(fs: Fields, keys: set<string>, names: set<string>)
    requires ClosedFields(fs, names)
    ensures ClosedFields(Drop(fs, keys), names)
  {
    if fs.Entry? { DropCloses(fs.rest, keys, names); }
  }

  /** A local name is the name of a candidate that carries its title and its body. */
  lemma {:induction false} NameHasDef(defs: seq<Def>, name: string)
    requires name in RenameOf(defs)
    ensures name in EnvOf(defs)
    ensures exists d | d in defs :: d.name == name && EnvOf(defs)[name] == Drop(d.body, {"$defs"})
  {
    var init, last := defs[..|defs| - 1], defs[|defs| - 1];
    assert defs == init + [last];
    if name != last.name {
      NameHasDef(init, name);
      var d :| d in init && d.name == name && EnvOf(init)[name] == Drop(d.body, {"$defs"});
      assert d in defs;
    } else {
      assert last in defs;
    }
  }

  lemma NameHasCandidate(files: seq<Source>, f: Source, name: string) returns (c: Candidate)
    requires f in files && name in Renames(f)
    ensures c in Candidates(files) && c.title == Renames(f)[name] && c.file == f
    ensures name in Env(f) && c.body == Env(f)[name]
  {
    NameHasDef(f.defs, name);
    var d :| d in f.defs && d.name == name && Env(f)[name] == Drop(d.body, {"$defs"});
    var i :| 0 <= i < |f.defs| && f.defs[i] == d;
    c := DefCandidates(f)[i];
    assert c in FileCandidates(f);
    CandidatesOfFile(files, f);
  }

  ghost predicate Setting(files: seq<Source>, f: Source) {
    OwnRefs(files) && SameTitleSameMeaning(Candidates(files)) && f in files
  }

  lemma SameMeaning(cs: seq<Candidate>, n: nat, c: Candidate, d: Candidate)
    requires SameTitleSameMeaning(cs) && c in cs && d in cs && c.title == d.title
    ensures Meaning(n, c) == Meaning(n, d)
  {}

  lemma FollowStep(n: nat, merged: map<string, Fields>, env: map<string, Fields>, title: string, name: string)
    requires n > 0 && title in merged && name in env
    requires UnfoldFields(n - 1, Untitled(merged[title]), merged) == UnfoldFields(n - 1, Untitled(env[name]), env)
    ensures Follow(n, title, merged) == Follow(n, name, env)
  {}

  /** Following a rewritten reference in the merged document is following the original in its file. */
  lemma {:induction false} FollowSame(files: seq<Source>, f: Source, n: nat, name: string)
    requires Setting(files, f) && name in Renames(f)
    ensures Follow(n, Renames(f)[name], Merge(Candidates(files))) == Follow(n, name, Env(f))
    decreases n, 0
  {
    if n > 0 {
      var d := NameIsKept(files, f, n - 1, name);
      FollowStep(n, Merge(Candidates(files)), Env(f), d.title, name);
    }
  }

  /** A local name stands for a candidate that is found under its title with its own meaning. */
  lemma NameIsKept(files: seq<Source>, f: Source, n: nat, name: string) returns (d: Candidate)
    requires Setting(files, f) && name in Renames(f)
    ensures name in Env(f) && d.title == Renames(f)[name] && d.file == f && d.body == Env(f)[name]
    ensures Kept(files, n, d)
    decreases n, 5
  {
    d := NameHasCandidate(files, f, name);
    CandidateKept(files, n, d);
  }

  /** A candidate as written means in the merged document what it means in its file. */
  lemma {:induction false} CandidateSame(files: seq<Source>, c: Candidate, n: nat)
    requires OwnRefs(files) && SameTitleSameMeaning(Candidates(files)) && c in Candidates(files)
    ensures UnfoldFields(n, Untitled(Emitted(c)), Merge(Candidates(files))) == Meaning(n, c)
    decreases n, 3
  {
    CandidateHasFile(files, c);
    UntitledSet(WalkFields(c.body, Renames(c.file)), c.title);
    DropWalk(c.body, {"title"}, Renames(c.file));
    DropCloses(c.body, {"title"}, Renames(c.file).Keys);
    FieldsSame(files, c.file, n, Untitled(c.body));
  }

  lemma {:induction false} NodeSame(files: seq<Source>, f: Source, n: nat, node: Json)
    requires Setting(files, f) && Closed(node, Renames(f).Keys)
    ensures Unfold(n, Walk(node, Renames(f)), Merge(Candidates(files))) == Unfold(n, node, Env(f))
    decreases n, 2, node
  {
    match node
    case Obj(fields) => FieldsSame(files, f, n, fields);
    case Arr(items) => ItemsSame(files, f, n, items);
    case _ =>
  }

  lemma {:induction false} ItemsSame(files: seq<Source>, f: Source, n: nat, items: Items)
    requires Setting(files, f) && ClosedItems(items, Renames(f).Keys)
    ensures UnfoldItems(n, WalkItems(items, Renames(f)), Merge(Candidates(files))) == UnfoldItems(n, items, Env(f))
    decreases n, 2, items
  {
    if items.Cons? {
      NodeSame(files, f, n, items.head);
      ItemsSame(files, f, n, items.tail);
    }
  }

  lemma {:induction false} FieldsSame(files: seq<Source>, f: Source, n: nat, fs: Fields)
    requires Setting(files, f) && ClosedFields(fs, Renames(f).Keys)
    ensures UnfoldFields(n, WalkFields(fs, Renames(f)), Merge(Candidates(files))) == UnfoldFields(n, fs, Env(f))
    decreases n, 2, fs
  {
    if fs.Entry? {
      FieldsSame(files, f, n, fs.rest);
      if IsRef(fs.key, fs.value) {
        TargetOfRef(Renames(f)[Target(fs.value)]);
        FollowSame(files, f, n, Target(fs.value));
      } else {
        NodeSame(files, f, n, fs.value);
      }
    }
  }

  /** A candidate is found under its title with its own meaning. */
  ghost predicate Kept(files: seq<Source>, n: nat, c: Candidate) {
    var merged := Merge(Candidates(files));
    c.title in merged && UnfoldFields(n, Untitled(merged[c.title]), merged) == Meaning(n, c)
  }

  ghost predicate Faithful(files: seq<Source>) { forall n: nat, c | c in Candidates(files) :: Kept(files, n, c) }

  /**
   The merge keeps every definition's meaning, up to its title and to any depth, exactly when
   definitions that share a title mean the same in their own files.
   */
  lemma MergeIsFaithful(files: seq<Source>)
    requires OwnRefs(files)
    ensures Faithful(files) <==> SameTitleSameMeaning(Candidates(files))
  {
    if SameTitleSameMeaning(Candidates(files)) {
      forall n: nat, c | c in Candidates(files) ensures Kept(files, n, c) { CandidateKept(files, n, c); }
    } else {
      var n: nat, c, d :| c in Candidates(files) && d in Candidates(files) && c.title == d.title && Meaning(n, c) != Meaning(n, d);
      assert !(Kept(files, n, c) && Kept(files, n, d));
    }
  }

  lemma {:induction false} CandidateKept(files: seq<Source>, n: nat, c: Candidate)
    requires OwnRefs(files) && SameTitleSameMeaning(Candidates(files)) && c in Candidates(files)
    ensures Kept(files, n, c)
    decreases n, 4
  {
    var first := Winner(Candidates(files), c);
    CandidateSame(files, first, n);
    SameMeaning(Candidates(files), n, first, c);
  }
}
