/** The observed / desired / in-flight algebra of one reconcilable value. */
module TwinFields {
  import opened Options

  /** Who last touched a value. */
  datatype Source = Boot | Device | Matter

  /** The value of a twin. The functions say what each operation of the class
      TwinField below leaves behind. */
  datatype Twin<T(==)> = Twin(
    observed: T,
    desired: T,
    inFlight: Option<T>,
    lastSource: Source,
    attribution: Source)
  {
    /** Unsent intent: the device is not (about to be) where the controller wants it. */
    predicate Dirty() {
      desired != inFlight.UnwrapOr(observed)
    }

    function WithDesired(v: T): Twin<T> {
      if v == desired then this else this.(desired := v, attribution := Matter)
    }

    function Promoted(): Twin<T> {
      this.(inFlight := Some(desired))
    }

    /** A report that must be ignored while a command is in flight: it repeats what
        was observed before the command and is not the value sent. */
    predicate Stale(v: T) {
      inFlight.Some? && v == observed && v != inFlight.value
    }

    /** A value the device moved to although nothing was in flight. */
    predicate External(v: T) {
      inFlight.None? && v != observed
    }

    function Observing(v: T, source: Source): Twin<T> {
      Twin(
        v,
        if External(v) then v else desired,
        if Stale(v) then inFlight else None,
        source,
        if Stale(v) || inFlight == Some(v) then attribution else source)
    }

    /** What subscribers see: the device's value while a command is pending. */
    function Projected(): T {
      if inFlight.Some? then observed else desired
    }

    /** Observed and desired agree and nothing is pending. */
    predicate Settled(v: T) {
      observed == v && desired == v && inFlight.None?
    }
  }

  function Initial<T>(v: T): Twin<T> {
    Twin(v, v, None, Boot, Boot)
  }

  /** The mutable twin, branch by branch. */
  class TwinField<T(==)> {
    var observed: T
    var desired: T
    var inFlight: Option<T>
    var lastSource: Source
    var attribution: Source

    function View(): Twin<T>
      reads this
    {
      Twin(observed, desired, inFlight, lastSource, attribution)
    }

    constructor (initial: T)
      ensures View() == Initial(initial)
    {
      observed, desired, inFlight := initial, initial, None;
      lastSource, attribution := Boot, Boot;
    }

    method Dirty() returns (dirty: bool)
      ensures dirty == View().Dirty()
    {
      dirty := if inFlight.Some? then desired != inFlight.value else desired != observed;
    }

    method SetDesired(v: T)
      modifies this
      ensures View() == old(View()).WithDesired(v)
    {
      if desired == v {
        return;
      }
      desired := v;
      attribution := Matter;
    }

    method PromoteDesiredToInFlight()
      modifies this
      ensures View() == old(View()).Promoted()
    {
      inFlight := Some(desired);
    }

    method ApplyObservation(v: T, source: Source)
      modifies this
      ensures View() == old(View()).Observing(v, source)
    {
      lastSource := source;
      if inFlight.Some? {
        if v == inFlight.value {          // confirmation
          inFlight := None;
          observed := v;
        } else if v == observed {         // stale poll
        } else {                          // disconfirmation
          inFlight := None;
          observed := v;
          attribution := source;
        }
        return;
      }
      if v != observed {                  // external change
        observed := v;
        desired := observed;
      }
      attribution := source;
    }
  }
}
