/**
 * The render-options form of the web page
 * (page/src/modules/tiny-renderer/FormRenderOptions.hook.tsx): the six
 * coordinate fields are strings as typed, errorMessage is an ordered chain
 * of checks over them, and handleSubmit gates the submit callback on it.
 */
module RenderOptionsForm {
  import opened Wrappers

  datatype Fields = Fields(
    model: string,
    cameraX: string, cameraY: string, cameraZ: string,
    lightX: string, lightY: string, lightZ: string)

  /** The initial state of every input of the hook. */
  const Defaults := Fields("shark", "1", "1", "1", "0", "0", "2")

  /** The six coordinate fields in the order the checks visit them, with their labels. */
  function Coordinates(f: Fields): (r: seq<(string, string)>)
    ensures |r| == 6
  {
    [("Camera X", f.cameraX), ("Camera Y", f.cameraY), ("Camera Z", f.cameraZ),
     ("Light X", f.lightX), ("Light Y", f.lightY), ("Light Z", f.lightZ)]
  }

  function EmptyMessage(name: string): string
  {
    name + " cannot be empty"
  }

  const CameraAtOrigin := "Camera position cannot be 0, 0, 0"
  const LightAtOrigin := "Light position cannot be 0, 0, 0"

  /** The errorMessage memo: null when every check passes. */
  function ErrorMessage(f: Fields): (r: Option<string>)
    ensures r.Some? ==> |r.value| > 0
  {
    if f.cameraX == "" then Some(EmptyMessage("Camera X"))
    else if f.cameraY == "" then Some(EmptyMessage("Camera Y"))
    else if f.cameraZ == "" then Some(EmptyMessage("Camera Z"))
    else if f.lightX == "" then Some(EmptyMessage("Light X"))
    else if f.lightY == "" then Some(EmptyMessage("Light Y"))
    else if f.lightZ == "" then Some(EmptyMessage("Light Z"))
    else if f.cameraX == "0" && f.cameraY == "0" && f.cameraZ == "0" then Some(CameraAtOrigin)
    else if f.lightX == "0" && f.lightY == "0" && f.lightZ == "0" then Some(LightAtOrigin)
    else None
  }

  /** The message for the first empty field in check order, if any field is empty. */
  function FirstEmpty(fields: seq<(string, string)>): (r: Option<string>)
    ensures r.None? <==> forall i :: 0 <= i < |fields| ==> fields[i].1 != ""
  {
    if |fields| == 0 then None
    else if fields[0].1 == "" then Some(EmptyMessage(fields[0].0))
    else FirstEmpty(fields[1..])
  }

  /** Emptiness wins over the origin checks, and the first empty field in order is the one reported. */
  lemma EmptyChecksFirst(f: Fields)
    ensures FirstEmpty(Coordinates(f)).Some? ==> ErrorMessage(f) == FirstEmpty(Coordinates(f))
  {
    var c := Coordinates(f);
    if f.cameraX == "" {
      FirstEmptyAt(c, 0);
    } else if f.cameraY == "" {
      FirstEmptyAt(c, 1);
    } else if f.cameraZ == "" {
      FirstEmptyAt(c, 2);
    } else if f.lightX == "" {
      FirstEmptyAt(c, 3);
    } else if f.lightY == "" {
      FirstEmptyAt(c, 4);
    } else if f.lightZ == "" {
      FirstEmptyAt(c, 5);
    } else {
      assert forall i :: 0 <= i < 6 ==> c[i].1 != "";
    }
  }

  /** Past the non-empty fields before it, the first empty field decides the message. */
  lemma {:induction false} FirstEmptyAt(fields: seq<(string, string)>, k: nat)
    requires k < |fields| && fields[k].1 == ""
    requires forall i :: 0 <= i < k ==> fields[i].1 != ""
    ensures FirstEmpty(fields) == Some(EmptyMessage(fields[k].0))
  {
    if k > 0 {
      FirstEmptyAt(fields[1..], k - 1);
    }
  }

  /** The first empty field is named in the message, whatever the later fields hold. */
  lemma FirstEmptyFieldReported(f: Fields, k: nat)
    requires k < 6 && Coordinates(f)[k].1 == ""
    requires forall i :: 0 <= i < k ==> Coordinates(f)[i].1 != ""
    ensures ErrorMessage(f) == Some(Coordinates(f)[k].0 + " cannot be empty")
  {
    var c := Coordinates(f);
    if k > 0 { assert c[0].1 != ""; }
    if k > 1 { assert c[1].1 != ""; }
    if k > 2 { assert c[2].1 != ""; }
    if k > 3 { assert c[3].1 != ""; }
    if k > 4 { assert c[4].1 != ""; }
  }

  /** Accepted exactly when no field is empty and neither position is the literal 0, 0, 0. */
  lemma AcceptedIff(f: Fields)
    ensures ErrorMessage(f).None? <==>
      (forall i :: 0 <= i < 6 ==> Coordinates(f)[i].1 != "") &&
      !(f.cameraX == "0" && f.cameraY == "0" && f.cameraZ == "0") &&
      !(f.lightX == "0" && f.lightY == "0" && f.lightZ == "0")
  {
    var c := Coordinates(f);
    if ErrorMessage(f).None? {
      forall i | 0 <= i < 6
        ensures c[i].1 != ""
      {
      }
    } else if f.cameraX == "" {
      assert c[0].1 == "";
    } else if f.cameraY == "" {
      assert c[1].1 == "";
    } else if f.cameraZ == "" {
      assert c[2].1 == "";
    } else if f.lightX == "" {
      assert c[3].1 == "";
    } else if f.lightY == "" {
      assert c[4].1 == "";
    } else if f.lightZ == "" {
      assert c[5].1 == "";
    }
  }

  /** The origin test compares strings, so another spelling of zero passes. */
  lemma ZeroSpellingsAccepted()
    ensures ErrorMessage(Fields("shark", "0.0", "0", "0", "-0", "0", "0")).None?
  {
  }

  /** The initial values of the form are accepted. */
  lemma DefaultsAccepted()
    ensures ErrorMessage(Defaults).None?
  {
  }

  /** The React state of the hook that handleSubmit changes. */
  class FormState {
    var isDirty: bool
    /** How many times the onSubmit callback has been called. */
    var submissions: nat

    /** useState(false). */
    constructor ()
      ensures !isDirty && submissions == 0
    {
      isDirty := false;
      submissions := 0;
    }

    /**
     * The handler handleSubmit(onSubmit) returns, applied to one submit
     * event: it prevents the default action and marks the form dirty; on an
     * error it stops there, otherwise it clears the dirty flag and calls
     * onSubmit when one was given. JavaScript's truthiness of the message
     * is the same as its presence, since no message is empty.
     */
    method HandleSubmit(f: Fields, hasOnSubmit: bool, e: SubmitEvent)
      modifies this, e
      ensures e.defaultPrevented
      ensures isDirty == ErrorMessage(f).Some?
      ensures submissions == old(submissions) + (if ErrorMessage(f).None? && hasOnSubmit then 1 else 0)
    {
      e.defaultPrevented := true;
      isDirty := true;
      var message := ErrorMessage(f);
      if message.Some? && message.value != "" {
        return;
      }
      isDirty := false;
      if hasOnSubmit {
        submissions := submissions + 1;
      }
    }
  }

  /** The form event handed to the handler. */
  class SubmitEvent {
    var defaultPrevented: bool

    constructor ()
      ensures !defaultPrevented
    {
      defaultPrevented := false;
    }
  }
}
