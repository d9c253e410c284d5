/**
 * The signal-inhibit flag of the user interfaces. `inhibitSignals` runs a
 * method with the flag raised and restores it afterwards; `withInhibit`
 * runs a method only while the flag is down. A wrapped method is modelled
 * as a function of the flag it sees while it runs.
 */
module UiUtils {
  import opened Wrappers

  class Inhibitable {
    /** `_inhibit_signals`. */
    var inhibit: bool

    constructor ()
      ensures !inhibit
    {
      inhibit := false;
    }

    /**
     * `inhibitSignals(method)`: the method always runs with the flag raised
     * and its result is returned; a raised flag stays raised (a nested call),
     * a lowered one is lowered again afterwards. The flag is lowered by a
     * plain assignment after the call, not in a `finally`: when the method
     * raises, the exception passes through and the flag stays raised.
     */
    method InhibitSignals<T>(body: bool -> Result<T>) returns (r: Result<T>)
      modifies this
      ensures r == body(true)
      ensures inhibit == (old(inhibit) || r.Err?)
    {
      if inhibit {
        r := body(inhibit);
      } else {
        inhibit := true;
        r := body(inhibit);
        if r.Err? {
          return;
        }
        inhibit := false;
      }
    }

    /**
     * `withInhibit(method)`: None, without running the method, while the flag
     * is raised; otherwise the method's result.
     */
    method WithInhibit<T>(body: () -> T) returns (r: Option<T>)
      ensures inhibit ==> r == None
      ensures !inhibit ==> r == Some(body())
    {
      if inhibit {
        return None;
      }
      r := Some(body());
    }
  }
}
