/**
 * The host-game dialog that carries ImGui (VSImGuiDialog) and the renderer
 * that keeps the secondary windows updated while the dialog is closed
 * (OffWindowRenderer).
 *
 * The host's dialog machinery and the ImGui controller are outside the model:
 * every call the dialog makes into them (TryOpen, TryClose, the controller's
 * Update/RenderOffWindow/RenderMainWindow) is appended to a call log, and the
 * controller's capture queries arrive as boolean parameters.
 */
module Integration {
  import opened Callbacks

  /** A call the dialog makes into the host or into the ImGui controller. */
  datatype HostCall =
    | TryOpen
    | TryClose
    | ControllerUpdate(captureInputs: bool)
    | ControllerRenderOffWindow
    | ControllerRenderMainWindow

  /** The host's dialog kind (EnumDialogType); only the two values the dialog uses. */
  datatype DialogType = Dialog | HUD

  /** The host's render stages, as far as the renderer tells them apart. */
  datatype RenderStage = Ortho | OtherStage

  /** The host's key code for Escape (GlKeys.Escape); its numeric value is host data. */
  const EscapeKeyCode: int

  /** A host input event: mouse button, mouse move, wheel or key, with its Handled flag. */
  class InputEvent {
    var handled: bool
    const keyCode: int

    constructor (handled: bool, keyCode: int)
      ensures this.handled == handled && this.keyCode == keyCode
    {
      this.handled := handled;
      this.keyCode := keyCode;
    }
  }

  /** Whether the keyboard handler overwrites an event's Handled flag. */
  predicate KeyboardOverwrites(handled: bool, keyCode: int, focused: bool) {
    !handled || (keyCode == EscapeKeyCode && !focused)
  }

  /**
   * Mouse button handler (and, in the current dialogs, the move and wheel
   * handlers with the "mouse moves captured" query): only an unhandled event
   * takes the capture answer, so an already-handled event stays handled.
   */
  method HandleMouse(args: InputEvent, captured: bool)
    modifies args
    ensures args.handled == (old(args.handled) || captured)
  {
    if !args.handled {
      args.handled := captured;
    }
  }

  /**
   * The oldest dialog routes wheel events to an empty overload: a wheel event
   * is never marked handled by the dialog.
   */
  method HandleMouseWheelIgnored(args: InputEvent)
    ensures args.handled == old(args.handled)
  {
  }

  /** Only Escape on an unfocused dialog can turn an already-handled key event back to unhandled. */
  lemma KeyboardClearsOnlyUnfocusedEscape(keyCode: int, focused: bool)
    ensures KeyboardOverwrites(true, keyCode, focused) <==> keyCode == EscapeKeyCode && !focused
    ensures KeyboardOverwrites(false, keyCode, focused)
  {
  }

  /**
   * The dialog of the current sources (VSImGui/source/Integration/Dialog.cs,
   * and VSImGui/source/ImGui/Dialog.cs, which has the same members except
   * DialogType).
   */
  class VSImGuiDialog<C(==)> {
    /** The callback registry whose decision the dialog applies each frame. */
    const manager: DrawCallbacksManager<C>
    /** Whether the last frame asked for the mouse (grab by the GUI). */
    var grabMouse: bool
    /** The host's "dialog is open" flag, owned by the host. */
    var isOpen: bool
    /** The host's "dialog has focus" flag, owned by the host. */
    var focused: bool
    /** Calls made into the host and the controller, oldest first. */
    var calls: seq<HostCall>

    ghost predicate Valid()
      reads this, manager
    {
      manager.Valid()
    }

    constructor (manager: DrawCallbacksManager<C>, isOpen: bool, focused: bool)
      requires manager.Valid()
      ensures Valid()
      ensures this.manager == manager && this.isOpen == isOpen && this.focused == focused
      ensures !grabMouse && calls == []
    {
      this.manager := manager;
      grabMouse := false;
      this.isOpen := isOpen;
      this.focused := focused;
      calls := [];
    }

    /** The host asks whether the dialog wants the mouse released from the camera. */
    function PrefersUngrabbedMouse(): (b: bool)
      reads this
      ensures b <==> DialogKind() == Dialog
    {
      grabMouse
    }

    /** A grabbing dialog is a full Dialog, otherwise a HUD. */
    function DialogKind(): (t: DialogType)
      reads this
      ensures t == Dialog <==> grabMouse
    {
      if grabMouse then Dialog else HUD
    }

    /**
     * Per-frame draw: run the registry, ask the host to open on an open
     * signal and to close on a close signal, and remember the grab wish.
     */
    method Draw(results: int -> Status)
      requires Valid()
      modifies this, manager
      ensures Valid()
      ensures manager.callbacks == old(manager.callbacks) && manager.nextId == old(manager.nextId)
      ensures manager.wasClosed == NextLatches(old(manager.wasClosed), results)
      ensures var d := Outcome(old(manager.wasClosed), results);
        && calls == old(calls) + (if d.open then [TryOpen] else []) + (if d.close then [TryClose] else [])
        && grabMouse == d.grab
      ensures isOpen == old(isOpen) && focused == old(focused)
    {
      var d := manager.Draw(results);
      if d.open {
        calls := calls + [TryOpen];
      }
      if d.close {
        calls := calls + [TryClose];
      }
      grabMouse := d.grab;
    }

    /** Controller update; the dialog's open flag decides whether ImGui captures inputs. */
    method Update()
      modifies this
      ensures calls == old(calls) + [ControllerUpdate(old(isOpen))]
      ensures grabMouse == old(grabMouse) && isOpen == old(isOpen) && focused == old(focused)
    {
      calls := calls + [ControllerUpdate(isOpen)];
    }

    method RenderOffWindow()
      modifies this
      ensures calls == old(calls) + [ControllerRenderOffWindow]
      ensures grabMouse == old(grabMouse) && isOpen == old(isOpen) && focused == old(focused)
    {
      calls := calls + [ControllerRenderOffWindow];
    }

    method OnRenderGUI()
      modifies this
      ensures calls == old(calls) + [ControllerRenderMainWindow]
      ensures grabMouse == old(grabMouse) && isOpen == old(isOpen) && focused == old(focused)
    {
      calls := calls + [ControllerRenderMainWindow];
    }

    /**
     * Keyboard handler: the capture answer replaces Handled when the event is
     * unhandled, and also for Escape while the dialog is unfocused, even when
     * another handler already took the event.
     */
    method HandleKeyboard(args: InputEvent, captured: bool)
      modifies args
      ensures KeyboardOverwrites(old(args.handled), args.keyCode, focused) ==> args.handled == captured
      ensures !KeyboardOverwrites(old(args.handled), args.keyCode, focused) ==> args.handled
    {
      if !args.handled || (args.keyCode == EscapeKeyCode && !focused) {
        args.handled := captured;
      }
    }
  }

  /** Runs the dialog's controller update and off-window render in the Ortho stage until disposed. */
  class OffWindowRenderer<C(==)> {
    const dialog: VSImGuiDialog<C>
    var disposed: bool

    constructor (dialog: VSImGuiDialog<C>)
      ensures this.dialog == dialog && !disposed
    {
      this.dialog := dialog;
      disposed := false;
    }

    method Dispose()
      modifies this
      ensures disposed
    {
      disposed := true;
    }

    /** Acts only when not disposed and in the Ortho stage: update first, then render. */
    method OnRenderFrame(stage: RenderStage)
      modifies dialog
      ensures dialog.calls == old(dialog.calls) +
        (if !disposed && stage == Ortho then [ControllerUpdate(old(dialog.isOpen)), ControllerRenderOffWindow] else [])
      ensures dialog.grabMouse == old(dialog.grabMouse) && dialog.isOpen == old(dialog.isOpen)
      ensures dialog.focused == old(dialog.focused)
    {
      if !disposed && stage == Ortho {
        dialog.Update();
        dialog.RenderOffWindow();
      }
    }
  }

  /**
   * The oldest dialog (VSImGui/src/ImGui/Dialog.cs): no registry and no grab
   * flag, only the controller calls; its mouse handler is the module-level
   * one, with wheel events ignored.
   */
  class LegacyDialog {
    var isOpen: bool
    /** The host's "dialog has focus" flag, owned by the host. */
    var focused: bool
    var calls: seq<HostCall>

    constructor (isOpen: bool, focused: bool)
      ensures this.isOpen == isOpen && this.focused == focused && calls == []
    {
      this.isOpen := isOpen;
      this.focused := focused;
      calls := [];
    }

    /**
     * Keyboard handler: the capture answer replaces Handled when the event is
     * unhandled, and also for Escape while the dialog is unfocused, even when
     * another handler already took the event.
     */
    method HandleKeyboard(args: InputEvent, captured: bool)
      modifies args
      ensures KeyboardOverwrites(old(args.handled), args.keyCode, focused) ==> args.handled == captured
      ensures !KeyboardOverwrites(old(args.handled), args.keyCode, focused) ==> args.handled
    {
      if !args.handled || (args.keyCode == EscapeKeyCode && !focused) {
        args.handled := captured;
      }
    }

    method Update()
      modifies this
      ensures calls == old(calls) + [ControllerUpdate(old(isOpen))] && isOpen == old(isOpen) && focused == old(focused)
    {
      calls := calls + [ControllerUpdate(isOpen)];
    }

    method RenderOffWindow()
      modifies this
      ensures calls == old(calls) + [ControllerRenderOffWindow] && isOpen == old(isOpen) && focused == old(focused)
    {
      calls := calls + [ControllerRenderOffWindow];
    }
  }

  /** The oldest off-window renderer, same gate as OffWindowRenderer. */
  class LegacyOffWindowRenderer {
    const dialog: LegacyDialog
    var disposed: bool

    constructor (dialog: LegacyDialog)
      ensures this.dialog == dialog && !disposed
    {
      this.dialog := dialog;
      disposed := false;
    }

    method Dispose()
      modifies this
      ensures disposed
    {
      disposed := true;
    }

    method OnRenderFrame(stage: RenderStage)
      modifies dialog
      ensures dialog.calls == old(dialog.calls) +
        (if !disposed && stage == Ortho then [ControllerUpdate(old(dialog.isOpen)), ControllerRenderOffWindow] else [])
      ensures dialog.isOpen == old(dialog.isOpen) && dialog.focused == old(dialog.focused)
    {
      if !disposed && stage == Ortho {
        dialog.Update();
        dialog.RenderOffWindow();
      }
    }
  }

  /** After Dispose, no stage makes the renderer call the controller again. */
  method DisposedRendererIsSilent<C(==)>(r: OffWindowRenderer<C>, stage: RenderStage)
    modifies r, r.dialog
    ensures r.disposed
    ensures r.dialog.calls == old(r.dialog.calls)
  {
    r.Dispose();
    r.OnRenderFrame(stage);
  }
}
