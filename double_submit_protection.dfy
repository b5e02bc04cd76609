/**
 * Double-submit protection (app/assets/js/double-submit-protection.js): once a
 * form is submitted, its `data-submitted` attribute blocks further submits and
 * its enabled buttons are disabled and marked; a `pageshow` listener is meant to
 * re-enable the marked buttons. The listener is added to `document`, but the
 * browser fires `pageshow` at the window, whose event path does not include the
 * document, so as written the listener never runs.
 */
module DoubleSubmitProtection {
  import opened JsText

  const INIT_CLASS := "double-submit-protection-init"
  const MARKER := "double-submit-disabled"

  /** A descendant element of the form: its class list and its `disabled` property. */
  datatype Control = Control(classes: set<string>, disabled: bool)

  /** `if (submitted)`: `getAttribute` gives null (None) or a string, and only a non-empty string is truthy. */
  predicate Truthy(attribute: Option<string>)
  {
    attribute.Some? && attribute.value != ""
  }

  /** What the submit handler's forEach does to one element matched by `.btn`. */
  function DisableForSubmit(c: Control): (d: Control)
    ensures "btn" in c.classes && !c.disabled ==> d.disabled && MARKER in d.classes && "disabled" in d.classes
    ensures !("btn" in c.classes && !c.disabled) ==> d == c
    ensures d.classes - {"disabled", MARKER} == c.classes - {"disabled", MARKER}
  {
    if "btn" in c.classes && !c.disabled then Control(c.classes + {"disabled", MARKER}, true) else c
  }

  /** What the pageshow handler's forEach does to one element matched by `.btn.double-submit-disabled`. */
  function EnableOnPageShow(c: Control): (d: Control)
    ensures "btn" in c.classes && MARKER in c.classes ==> !d.disabled && MARKER !in d.classes && "disabled" !in d.classes
    ensures !("btn" in c.classes && MARKER in c.classes) ==> d == c
  {
    if "btn" in c.classes && MARKER in c.classes then Control(c.classes - {"disabled", MARKER}, false) else c
  }

  /**
   * Submit then pageshow gives back an enabled, unmarked button; a button that
   * was already disabled is neither marked by the submit nor re-enabled by pageshow.
   */
  lemma SubmitThenPageShow(c: Control)
    requires "btn" in c.classes && MARKER !in c.classes
    ensures !c.disabled && "disabled" !in c.classes ==> EnableOnPageShow(DisableForSubmit(c)) == c
    ensures c.disabled ==> EnableOnPageShow(DisableForSubmit(c)) == c && DisableForSubmit(c) == c
  {
    if !c.disabled && "disabled" !in c.classes {
      assert c.classes + {"disabled", MARKER} - {"disabled", MARKER} == c.classes;
    }
  }

  /** A second pageshow handler finds no marked button and changes nothing more. */
  lemma EnableOnPageShowIdempotent(c: Control)
    ensures EnableOnPageShow(EnableOnPageShow(c)) == EnableOnPageShow(c)
  {
  }

  class Form {
    var classes: set<string>
    /** The `data-submitted` attribute; None when absent. */
    var submitted: Option<string>
    /** The form's descendant elements, in document order. */
    const controls: array<Control>
    /** Submit listeners `attachListener` has added to this form. */
    var submitListeners: nat
    /**
     * Pageshow listeners that accepted submits of this form have added to the
     * document; the window's `pageshow` event never reaches them.
     */
    var pageshowListeners: nat

    constructor (classes: set<string>, submitted: Option<string>, controls: array<Control>)
      ensures this.classes == classes && this.submitted == submitted && this.controls == controls
      ensures submitListeners == 0 && pageshowListeners == 0
    {
      this.classes := classes;
      this.submitted := submitted;
      this.controls := controls;
      submitListeners := 0;
      pageshowListeners := 0;
    }

    /** `attachListener(form)`: adds one submit listener unless the init class is already there; always true. */
    method AttachListener() returns (r: bool)
      modifies this
      ensures r
      ensures INIT_CLASS in old(classes) ==>
        classes == old(classes) && submitListeners == old(submitListeners)
      ensures INIT_CLASS !in old(classes) ==>
        classes == old(classes) + {INIT_CLASS} && submitListeners == old(submitListeners) + 1
      ensures submitted == old(submitted) && pageshowListeners == old(pageshowListeners)
    {
      if INIT_CLASS in classes {
        return true;
      }
      submitListeners := submitListeners + 1;
      classes := classes + {INIT_CLASS};
      return true;
    }

    /**
     * The submit listener. A truthy `data-submitted` prevents the submit and
     * changes nothing; otherwise the attribute becomes "true", every enabled
     * `.btn` is disabled and marked, and one more pageshow listener is registered.
     */
    method OnSubmit() returns (prevented: bool)
      modifies this, controls
      ensures prevented <==> Truthy(old(submitted))
      ensures prevented ==> (submitted == old(submitted) && controls[..] == old(controls[..])
        && pageshowListeners == old(pageshowListeners))
      ensures !prevented ==> (submitted == Some("true") && pageshowListeners == old(pageshowListeners) + 1
        && forall k :: 0 <= k < controls.Length ==> controls[k] == DisableForSubmit(old(controls[k])))
      ensures classes == old(classes) && submitListeners == old(submitListeners)
    {
      if Truthy(submitted) {
        return true;
      }
      submitted := Some("true");
      var i := 0;
      while i < controls.Length
        modifies controls
        invariant 0 <= i <= controls.Length
        invariant forall k :: 0 <= k < i ==> controls[k] == DisableForSubmit(old(controls[k]))
        invariant forall k :: i <= k < controls.Length ==> controls[k] == old(controls[k])
      {
        var c := controls[i];
        if "btn" in c.classes && !c.disabled {
          controls[i] := Control(c.classes + {"disabled", MARKER}, true);
        }
        i := i + 1;
      }
      pageshowListeners := pageshowListeners + 1;
      return false;
    }

    /**
     * One pageshow listener: `data-submitted` becomes the string "false" and
     * exactly the marked buttons are re-enabled and unmarked.
     */
    method OnPageShow()
      modifies this, controls
      ensures submitted == Some("false")
      ensures forall k :: 0 <= k < controls.Length ==> controls[k] == EnableOnPageShow(old(controls[k]))
      ensures classes == old(classes) && submitListeners == old(submitListeners)
        && pageshowListeners == old(pageshowListeners)
    {
      submitted := Some("false");
      var i := 0;
      while i < controls.Length
        modifies controls
        invariant 0 <= i <= controls.Length
        invariant forall k :: 0 <= k < i ==> controls[k] == EnableOnPageShow(old(controls[k]))
        invariant forall k :: i <= k < controls.Length ==> controls[k] == old(controls[k])
      {
        var c := controls[i];
        if "btn" in c.classes && MARKER in c.classes {
          controls[i] := Control(c.classes - {"disabled", MARKER}, false);
        }
        i := i + 1;
      }
    }

    /**
     * A pageshow event that reaches the listeners (as it would with the listeners
     * on the window) runs every one of them; however many have accumulated, the
     * result is that of one run (and nothing happens with none).
     */
    method DispatchPageShow()
      modifies this, controls
      ensures pageshowListeners == 0 ==> submitted == old(submitted) && controls[..] == old(controls[..])
      ensures pageshowListeners > 0 ==> (submitted == Some("false")
        && forall k :: 0 <= k < controls.Length ==> controls[k] == EnableOnPageShow(old(controls[k])))
      ensures classes == old(classes) && submitListeners == old(submitListeners)
        && pageshowListeners == old(pageshowListeners)
    {
      var n := 0;
      while n < pageshowListeners
        invariant 0 <= n <= pageshowListeners
        invariant classes == old(classes) && submitListeners == old(submitListeners)
          && pageshowListeners == old(pageshowListeners)
        invariant n == 0 ==> submitted == old(submitted) && controls[..] == old(controls[..])
        invariant n > 0 ==> (submitted == Some("false")
          && forall k :: 0 <= k < controls.Length ==> controls[k] == EnableOnPageShow(old(controls[k])))
      {
        OnPageShow();
        forall k | 0 <= k < controls.Length
          ensures controls[k] == EnableOnPageShow(old(controls[k]))
        {
          EnableOnPageShowIdempotent(old(controls[k]));
        }
        n := n + 1;
      }
    }

    /**
     * The corrected pageshow listener: removing the attribute, so that the page
     * can be submitted again once its buttons are re-enabled.
     */
    method OnPageShowIntended()
      modifies this, controls
      ensures submitted == None && !Truthy(submitted)
      ensures forall k :: 0 <= k < controls.Length ==> controls[k] == EnableOnPageShow(old(controls[k]))
      ensures classes == old(classes) && submitListeners == old(submitListeners)
        && pageshowListeners == old(pageshowListeners)
    {
      OnPageShow();
      submitted := None;
    }
  }

  /**
   * As written, coming back to the page: submit, then the browser fires
   * `pageshow` at the window, which runs none of the listeners on the document,
   * then submit again. The second submit is prevented and every button the first
   * one disabled stays disabled.
   */
  method BackNavigationLeavesFormLocked(form: Form) returns (first: bool, second: bool)
    requires !Truthy(form.submitted)
    modifies form, form.controls
    ensures !first && second
    ensures forall k :: 0 <= k < form.controls.Length ==> form.controls[k] == DisableForSubmit(old(form.controls[k]))
    ensures form.pageshowListeners == old(form.pageshowListeners) + 1
  {
    first := form.OnSubmit();
    second := form.OnSubmit();
  }

  /**
   * With the listener on the window, coming back to the page after a submit runs
   * it: every button the submit disabled is enabled and unmarked again.
   */
  method BackNavigationWithWindowListener(form: Form) returns (first: bool)
    requires !Truthy(form.submitted)
    modifies form, form.controls
    ensures !first && form.submitted == Some("false")
    ensures forall k :: 0 <= k < form.controls.Length ==>
      form.controls[k] == EnableOnPageShow(DisableForSubmit(old(form.controls[k])))
  {
    first := form.OnSubmit();
    form.DispatchPageShow();
  }

  /**
   * As written, were the listener to run: submit, pageshow, submit again: the
   * second submit is prevented, since the listener stores the truthy "false".
   */
  method ResubmitAfterPageShow(form: Form) returns (first: bool, second: bool)
    requires !Truthy(form.submitted)
    modifies form, form.controls
    ensures !first && second
  {
    first := form.OnSubmit();
    form.DispatchPageShow();
    second := form.OnSubmit();
  }

  /** With the corrected listener the second submit goes through. */
  method ResubmitAfterPageShowIntended(form: Form) returns (first: bool, second: bool)
    requires !Truthy(form.submitted)
    modifies form, form.controls
    ensures !first && !second
  {
    first := form.OnSubmit();
    form.OnPageShowIntended();
    second := form.OnSubmit();
  }
}
