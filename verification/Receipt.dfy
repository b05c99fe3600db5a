/**
 The receipt of a generation is computed by the worker from its native result and checked again by
 the program that started the worker, from the same result and on its own terms.
 */
module Receipt {
  import opened Wrappers

  /** A JSON value as far as the checks can tell values apart. */
  datatype Value = Missing | Null | Boolean(b: bool) | Number(n: real) | Text(s: string) | Other

  datatype Contract = Contract(backend: Value, dataPath: Value, axis: Value)

  datatype Metrics = Metrics(backend: Value, dataPath: Value, axis: Value, ane: Value, gpuChannels: Value,
                             hybrid: Value, gpu: Value, fallback: Value, reason: Value, failure: Value)

  /** The parts of a native result that the receipt depends on; None: not an object. */
  datatype Native = Native(execution: Value, contract: Option<Contract>, failed: Value, metrics: Option<Metrics>)

  /** A receipt on the wire. extra: it has other members. */
  datatype Wire = Wire(backend: Value, dataPath: Value, axis: Value, ane: Value, reason: Value,
                       hybrid: Value, gpu: Value, fallback: Value,
                       selected: Value, execution: Value, partial: Value, extra: bool)

  const EXACT := 9007199254740991.0

  predicate Whole(v: Value) { v.Number? && v.n >= 0.0 && v.n.Floor as real == v.n }

  /** A whole number that a 64-bit integer can hold. */
  predicate Int64(v: Value) { Whole(v) && v.n <= 9223372036854775807.0 }

  predicate IsNumber(v: Value, n: real) { v.Number? && v.n == n }

  // ---------- the worker ----------

  /** Equality of two values that are there. */
  predicate Equal(a: Value, b: Value) { a == b && !a.Missing? && !a.Null? }

  predicate Counter(v: Value) { Whole(v) && v.n <= EXACT }

  function Reason(m: Metrics): string
    requires m.reason.Text? && m.failure.Text?
  {
    if m.failure.s != "" then m.failure.s else m.reason.s
  }

  /** What the worker requires of any native result. */
  predicate Consistent(c: Contract, m: Metrics, failed: Value) {
    && ((c.backend.Null? && m.backend.Null?) || Equal(c.backend, m.backend))
    && c.dataPath.Text? && Equal(c.dataPath, m.dataPath) && c.axis.Text? && Equal(c.axis, m.axis)
    && Counter(m.ane) && Counter(m.gpuChannels) && Counter(m.hybrid) && Counter(m.gpu) && Counter(m.fallback)
    && m.reason.Text? && m.failure.Text? && failed.Boolean?
  }

  predicate Qualified(model: string, execution: Value, c: Contract, m: Metrics) {
    var width := if model == "qwen-image-2.1" then 12288.0 else 10240.0;
    if c.backend == Text("private_ane") then
      && c.dataPath == Text("w8a8_hadamard") && c.axis == Text("intermediate_channels")
      && IsNumber(m.ane, 4096.0) && IsNumber(m.gpuChannels, width - 4096.0) && execution == Text("gpu_ane_experimental")
    else
      && c.backend.Null? && IsNumber(m.ane, 0.0) && IsNumber(m.hybrid, 0.0)
      && c.dataPath == Text("") && (c.axis == Text("") || c.axis == Text("rows")) && execution == Text("gpu")
  }

  /** The receipt of a native result, if there is one. */
  function Compute(model: string, native: Native): Option<Wire> {
    if native.contract.None? || native.metrics.None? then None
    else
      var c, m := native.contract.value, native.metrics.value;
      if !Consistent(c, m, native.failed) || !Qualified(model, native.execution, c, m) then None
      else
        var executed := c.backend == Text("private_ane") && m.hybrid.n > 0.0;
        var troubled := m.fallback.n > 0.0 || native.failed.b;
        if (!executed || troubled) && Reason(m) == "" then None
        else Some(Wire(Text(if executed then "private_ane" else "gpu"),
                       Text(if executed then "w8a8_hadamard" else ""),
                       Text(if executed then "intermediate_channels" else ""),
                       Number(if executed then 4096.0 else 0.0), Text(Reason(m)),
                       m.hybrid, m.gpu, m.fallback, c.backend,
                       Text(if executed then "gpu_ane" else "gpu"), Boolean(executed && troubled), false))
  }

  // ---------- the check in the program ----------

  /** The receipt has its members and their types. */
  predicate Decodes(w: Wire) {
    && !w.extra && Int64(w.ane) && Int64(w.hybrid) && Int64(w.gpu) && Int64(w.fallback)
    && w.backend.Text? && w.dataPath.Text? && w.axis.Text? && w.reason.Text?
    && (w.selected.Text? || w.selected.Null?) && w.execution.Text? && w.partial.Boolean?
  }

  /** The string in a value, if it is one. */
  function AsText(v: Value): Option<string> { if v.Text? then Some(v.s) else None }

  /** The counters and texts of the result that the receipt repeats. */
  predicate Repeats(w: Wire, c: Contract, m: Metrics, failed: Value)
    requires Decodes(w)
  {
    && m.hybrid == w.hybrid && m.gpu == w.gpu && m.fallback == w.fallback
    && Whole(m.ane) && Whole(m.gpuChannels) && Whole(m.hybrid) && Whole(m.gpu) && Whole(m.fallback)
    && m.reason.Text? && m.failure.Text? && failed.Boolean?
    && w.reason.s == (if m.failure.s == "" then m.reason.s else m.failure.s)
    && AsText(c.dataPath) == AsText(m.dataPath) && AsText(c.axis) == AsText(m.axis)
    && AsText(w.selected) == AsText(c.backend)
    && w.execution.s == (if w.hybrid.n > 0.0 then "gpu_ane" else "gpu")
    && w.partial.b == (w.hybrid.n > 0.0 && (w.fallback.n > 0.0 || failed.b))
  }

  predicate SelectedFits(model: string, execution: Value, w: Wire, c: Contract, m: Metrics)
    requires Decodes(w)
  {
    if AsText(c.backend) == Some("private_ane") then
      && AsText(m.backend) == Some("private_ane")
      && AsText(c.dataPath) == Some("w8a8_hadamard") && AsText(c.axis) == Some("intermediate_channels")
      && IsNumber(m.ane, 4096.0) && IsNumber(m.gpuChannels, (if model == "z-image-turbo" then 10240.0 else 12288.0) - 4096.0)
      && AsText(execution) == Some("gpu_ane_experimental")
    else
      && c.backend.Null? && m.backend.Null? && w.selected.Null? && w.hybrid.n == 0.0 && IsNumber(m.ane, 0.0)
      && AsText(c.dataPath) == Some("") && (AsText(c.axis) == Some("") || AsText(c.axis) == Some("rows"))
      && AsText(execution) == Some("gpu")
  }

  predicate ExecutedFits(w: Wire, m: Metrics)
    requires Decodes(w)
  {
    if w.backend.s == "private_ane" then
      && w.dataPath.s == "w8a8_hadamard" && w.axis.s == "intermediate_channels" && w.ane.n == 4096.0
      && w.hybrid.n > 0.0 && AsText(m.backend) == Some("private_ane")
      && AsText(m.dataPath) == Some(w.dataPath.s) && AsText(m.axis) == Some(w.axis.s) && IsNumber(m.ane, 4096.0)
      && (!w.partial.b || w.reason.s != "")
    else
      && w.backend.s == "gpu" && w.dataPath.s == "" && w.axis.s == ""
      && w.ane.n == 0.0 && w.hybrid.n == 0.0 && w.reason.s != ""
  }

  predicate Validates(model: string, native: Native, w: Wire) {
    && Decodes(w) && native.metrics.Some? && native.contract.Some?
    && Repeats(w, native.contract.value, native.metrics.value, native.failed)
    && SelectedFits(model, native.execution, w, native.contract.value, native.metrics.value)
    && ExecutedFits(w, native.metrics.value)
  }

  // ---------- both agree ----------

  /** The two models for which the profile exists. */
  predicate Supported(model: string) { model == "z-image-turbo" || model == "qwen-image-2.1" }

  predicate ExactNumber(v: Value) { v.Number? ==> v.n <= EXACT }

  /** Counters that a double represents exactly; anything else may be wrong with them. */
  predicate Exact(native: Native) {
    native.metrics.Some? ==>
      var m := native.metrics.value;
      ExactNumber(m.ane) && ExactNumber(m.gpuChannels) && ExactNumber(m.hybrid) && ExactNumber(m.gpu) && ExactNumber(m.fallback)
  }

  lemma ComputedIsAccepted(model: string, native: Native)
    requires Supported(model) && Compute(model, native).Some?
    ensures Validates(model, native, Compute(model, native).value)
  {
  }

  lemma AcceptedIsComputed(model: string, native: Native, w: Wire)
    requires Supported(model) && Exact(native) && Validates(model, native, w)
    ensures Compute(model, native) == Some(w)
  {
    var c, m := native.contract.value, native.metrics.value;
    assert Consistent(c, m, native.failed);
    assert Qualified(model, native.execution, c, m);
  }

  /** The program accepts exactly the receipt that the worker computes: there is at most one for a
      result, and none that a worker produces is refused. */
  lemma ReceiptIsUnique(model: string, native: Native, w: Wire)
    requires Supported(model) && Exact(native)
    ensures Validates(model, native, w) <==> Compute(model, native) == Some(w)
  {
    if Validates(model, native, w) { AcceptedIsComputed(model, native, w); }
    if Compute(model, native) == Some(w) { ComputedIsAccepted(model, native); }
  }

  /** The two sides differ over an accepted receipt exactly if some counter is out of that range. */
  lemma AcceptedIsComputedExactly(model: string, native: Native, w: Wire)
    requires Supported(model) && Validates(model, native, w)
    ensures Compute(model, native) == Some(w) <==> Exact(native)
  {
    if Exact(native) { AcceptedIsComputed(model, native, w); } else { InexactCountersDiffer(model, native, w); }
  }

  /** Beyond the exact range only the worker refuses: its receipt is never made, though the program
      would accept one. */
  lemma InexactCountersDiffer(model: string, native: Native, w: Wire)
    requires Supported(model) && !Exact(native)
    ensures Compute(model, native) == None
  {
  }

  lemma InexactCountersAreAccepted()
    ensures exists native: Native, w: Wire ::
              !Exact(native) && Validates("z-image-turbo", native, w) && Compute("z-image-turbo", native) == None
  {
    var m := Metrics(Null, Text(""), Text(""), Number(0.0), Number(0.0), Number(0.0), Number(EXACT + 1.0), Number(0.0),
                     Text("no accelerator"), Text(""));
    var native := Native(Text("gpu"), Some(Contract(Null, Text(""), Text(""))), Boolean(false), Some(m));
    var w := Wire(Text("gpu"), Text(""), Text(""), Number(0.0), Text("no accelerator"),
                  Number(0.0), Number(EXACT + 1.0), Number(0.0), Null, Text("gpu"), Boolean(false), false);
    assert Whole(m.gpu);
    assert Validates("z-image-turbo", native, w);
    InexactCountersDiffer("z-image-turbo", native, w);
  }

  /** For any other model the two sides disagree on the width, and nothing private is accepted. */
  lemma OtherModelsDisagree(model: string, native: Native)
    requires !Supported(model) && Compute(model, native).Some? && native.contract.value.backend == Text("private_ane")
    ensures forall w: Wire :: !Validates(model, native, w)
  {
  }
}
