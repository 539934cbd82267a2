/** JSON merge patches (section 2 of RFC 7396) on workflow documents. */
module MergePatch {
  import opened Wrappers
  import opened Argo

  datatype Json =
    | Null
    | Bool(b: bool)
    | Number(n: real)
    | Text(s: string)
    | Array(items: seq<Json>)
    | Object(fields: map<string, Json>)

  /** Only objects are merged field by field; everything else, arrays included, is replaced as a whole. A missing
      target counts as Null. */
  function Merge(target: Json, patch: Json): Json
    decreases patch
  {
    if !patch.Object? then patch
    else
      var base := if target.Object? then target.fields else map[];
      Object(map k | k in base.Keys + patch.fields.Keys && !(k in patch.fields && patch.fields[k].Null?) ::
        if k in patch.fields then Merge(if k in base then base[k] else Null, patch.fields[k]) else base[k])
  }

  /** A patch of one field of the spec. */
  function SpecPatch(field: string, value: Json): Json {
    Object(map["spec" := Object(map[field := value])])
  }

  function PriorityPatch(p: Int32): Json {
    SpecPatch("priority", Number(p as real))
  }

  function ShutdownPatch(): Json {
    SpecPatch("shutdown", Text("Terminate"))
  }

  function FieldsOf(j: Json): map<string, Json> {
    if j.Object? then j.fields else map[]
  }

  function FieldOr(j: Json, field: string): Json {
    if field in FieldsOf(j) then FieldsOf(j)[field] else Null
  }

  /** A value that replaces what was there. */
  predicate IsAtomic(j: Json) {
    !j.Null? && !j.Object?
  }

  /** A spec patch sets one field of the spec and touches nothing else in the document. */
  lemma SpecPatchSetsOneField(doc: Json, field: string, value: Json)
    requires IsAtomic(value)
    ensures Merge(doc, SpecPatch(field, value))
         == WithSpec(doc, SpecOf(doc)[field := value])
  {
    var inner := Object(map[field := value]);
    var spec := FieldOr(doc, "spec");
    assert Merge(FieldOr(spec, field), value) == value;
    assert Merge(spec, inner).fields == FieldsOf(spec)[field := value];
    assert Merge(doc, SpecPatch(field, value)).fields == FieldsOf(doc)["spec" := Merge(spec, inner)];
  }

  /** The document after its spec became `spec`. */
  function WithSpec(doc: Json, spec: map<string, Json>): Json {
    Object(FieldsOf(doc)["spec" := Object(spec)])
  }

  function SpecOf(doc: Json): map<string, Json> {
    FieldsOf(FieldOr(doc, "spec"))
  }

  lemma PatchWithSpec(doc: Json, spec: map<string, Json>, field: string, value: Json)
    requires IsAtomic(value)
    ensures Merge(WithSpec(doc, spec), SpecPatch(field, value)) == WithSpec(doc, spec[field := value])
  {
    SpecPatchSetsOneField(WithSpec(doc, spec), field, value);
    assert SpecOf(WithSpec(doc, spec)) == spec;
    assert WithSpec(WithSpec(doc, spec), spec[field := value]).fields == WithSpec(doc, spec[field := value]).fields;
  }

  lemma TwoPatches(doc: Json, f: string, v: Json, g: string, w: Json, spec: map<string, Json>)
    requires IsAtomic(v) && IsAtomic(w) && spec == SpecOf(doc)[f := v][g := w]
    ensures Merge(Merge(doc, SpecPatch(f, v)), SpecPatch(g, w)) == WithSpec(doc, spec)
  {
    SpecPatchSetsOneField(doc, f, v);
    PatchWithSpec(doc, SpecOf(doc)[f := v], g, w);
  }

  /** Patches of different spec fields can be applied in either order, to any document. */
  lemma SpecPatchesCommute(doc: Json, f: string, v: Json, g: string, w: Json)
    requires f != g && IsAtomic(v) && IsAtomic(w)
    ensures Merge(Merge(doc, SpecPatch(f, v)), SpecPatch(g, w)) == Merge(Merge(doc, SpecPatch(g, w)), SpecPatch(f, v))
  {
    var spec := SpecOf(doc)[f := v][g := w];
    assert spec == SpecOf(doc)[g := w][f := v];
    TwoPatches(doc, f, v, g, w, spec);
    TwoPatches(doc, g, w, f, v, spec);
  }

  /** The two patches as they are sent. */
  lemma PatchesAsSent(p: Int32)
    ensures PriorityPatch(p) == Object(map["spec" := Object(map["priority" := Number(p as real)])])
    ensures ShutdownPatch() == Object(map["spec" := Object(map["shutdown" := Text("Terminate")])])
  {
  }

  /** A null in a patch takes the field out, anything that is no object replaces the whole target, and fields a
      patch does not name stay. */
  lemma MergeRules(doc: Json, patch: Json, field: string)
    ensures !patch.Object? ==> Merge(doc, patch) == patch
    ensures patch.Object? ==> Merge(doc, patch).Object?
    ensures patch.Object? && field in patch.fields && patch.fields[field].Null? ==> field !in Merge(doc, patch).fields
    ensures patch.Object? && field in patch.fields && !patch.fields[field].Null? ==>
      field in Merge(doc, patch).fields &&
      Merge(doc, patch).fields[field] == Merge(FieldOr(doc, field), patch.fields[field])
    ensures patch.Object? && field !in patch.fields ==>
      (field in Merge(doc, patch).fields <==> field in FieldsOf(doc)) &&
      (field in FieldsOf(doc) ==> Merge(doc, patch).fields[field] == FieldsOf(doc)[field])
  {
  }

  lemma CancelAndReprioritizeCommute(doc: Json, p: Int32)
    ensures Merge(Merge(doc, PriorityPatch(p)), ShutdownPatch()) == Merge(Merge(doc, ShutdownPatch()), PriorityPatch(p))
  {
    assert "priority"[0] != "shutdown"[0];
    SpecPatchesCommute(doc, "priority", Number(p as real), "shutdown", Text("Terminate"));
  }

  function TextFields(labels: map<string, string>): map<string, Json> {
    map k | k in labels :: Text(labels[k])
  }

  function ParameterOf(p: Parameter): Json {
    Object(map["name" := Text(p.name), "value" := Text(p.value)])
  }

  function Parameters(ps: seq<Parameter>): Json {
    Array(seq(|ps|, i requires 0 <= i < |ps| => ParameterOf(ps[i])))
  }

  const MODELLED := {"arguments", "workflowTemplateRef", "priority", "shutdown"}

  /** What a stored document says beyond the fields a workflow is modelled with. */
  datatype Rest = Rest(metadata: map<string, Json>, spec: map<string, Json>, status: Json)

  function MetadataFields(w: Workflow, more: map<string, Json>): map<string, Json> {
    more + map["name" := Text(w.name), "labels" := Object(TextFields(w.labels)),
               "annotations" := Object(TextFields(w.annotations)), "creationTimestamp" := Number(w.created as real)]
  }

  function SpecFields(w: Workflow, more: map<string, Json>): map<string, Json> {
    var base := (more - MODELLED)["arguments" := Object(map["parameters" := Parameters(w.arguments)])];
    var ref := if w.template.Some? then Some(Object(map["name" := Text(w.template.value)])) else None;
    var priority := if w.priority.Some? then Some(Number(w.priority.value as real)) else None;
    var shutdown := if w.shutdown.Some? then Some(Text(w.shutdown.value)) else None;
    With(With(With(base, "workflowTemplateRef", ref), "priority", priority), "shutdown", shutdown)
  }

  /** A field that may be missing. */
  function With(fields: map<string, Json>, field: string, value: Option<Json>): map<string, Json> {
    if value.Some? then fields[field := value.value] else fields
  }

  lemma WithThenSet(fields: map<string, Json>, field: string, before: Option<Json>, value: Json)
    ensures With(fields, field, before)[field := value] == With(fields, field, Some(value))
  {
  }

  lemma WithElsewhere(fields: map<string, Json>, field: string, value: Json, other: string, v: Option<Json>)
    requires other != field
    ensures With(fields, other, v)[field := value] == With(fields[field := value], other, v)
  {
    if v.Some? {
      assert fields[other := v.value][field := value] == fields[field := value][other := v.value];
    }
  }

  /** A document with the metadata of `w`, the given spec and the status of `rest`. */
  function Around(w: Workflow, spec: map<string, Json>, rest: Rest): Json {
    Object(map["metadata" := Object(MetadataFields(w, rest.metadata)), "status" := rest.status, "spec" := Object(spec)])
  }

  /** The stored document of a workflow, whatever else it holds. */
  function Document(w: Workflow, rest: Rest): Json {
    Around(w, SpecFields(w, rest.spec), rest)
  }

  lemma PatchAround(w: Workflow, spec: map<string, Json>, rest: Rest, field: string, value: Json)
    requires IsAtomic(value)
    ensures Merge(Around(w, spec, rest), SpecPatch(field, value)) == Around(w, spec[field := value], rest)
  {
    var doc := Around(w, spec, rest);
    SpecPatchSetsOneField(doc, field, value);
    assert FieldOr(doc, "spec") == Object(spec);
    assert doc.fields["spec" := Object(spec[field := value])] == Around(w, spec[field := value], rest).fields;
  }

  lemma PriorityField(w: Workflow, more: map<string, Json>, p: Int32)
    ensures SpecFields(w, more)["priority" := Number(p as real)] == SpecFields(w.(priority := Some(p)), more)
  {
    assert "priority"[0] != "shutdown"[0];
    var base := (more - MODELLED)["arguments" := Object(map["parameters" := Parameters(w.arguments)])];
    var ref := if w.template.Some? then Some(Object(map["name" := Text(w.template.value)])) else None;
    var priority := if w.priority.Some? then Some(Number(w.priority.value as real)) else None;
    var shutdown := if w.shutdown.Some? then Some(Text(w.shutdown.value)) else None;
    var fields := With(base, "workflowTemplateRef", ref);
    WithElsewhere(With(fields, "priority", priority), "priority", Number(p as real), "shutdown", shutdown);
    WithThenSet(fields, "priority", priority, Number(p as real));
  }

  lemma ShutdownField(w: Workflow, more: map<string, Json>)
    ensures SpecFields(w, more)["shutdown" := Text("Terminate")] == SpecFields(w.(shutdown := Some("Terminate")), more)
  {
    var w' := w.(shutdown := None);
    var shutdown := if w.shutdown.Some? then Some(Text(w.shutdown.value)) else None;
    WithThenSet(SpecFields(w', more), "shutdown", shutdown, Text("Terminate"));
  }

  /** On stored workflows the two patches are updates of one field. */
  lemma PatchesUpdateWorkflow(w: Workflow, rest: Rest, p: Int32)
    ensures Merge(Document(w, rest), PriorityPatch(p)) == Document(w.(priority := Some(p)), rest)
    ensures Merge(Document(w, rest), ShutdownPatch()) == Document(w.(shutdown := Some("Terminate")), rest)
  {
    PatchAround(w, SpecFields(w, rest.spec), rest, "priority", Number(p as real));
    PatchAround(w, SpecFields(w, rest.spec), rest, "shutdown", Text("Terminate"));
    PriorityField(w, rest.spec, p);
    ShutdownField(w, rest.spec);
    var sp := SpecFields(w.(priority := Some(p)), rest.spec);
    var st := SpecFields(w.(shutdown := Some("Terminate")), rest.spec);
    assert Around(w, sp, rest) == Around(w.(priority := Some(p)), sp, rest);
    assert Around(w, st, rest) == Around(w.(shutdown := Some("Terminate")), st, rest);
  }
}
