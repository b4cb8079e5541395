/** The confirmation dialog: its visual configuration per type, its prop
    defaults, and the callbacks each button fires, in order. */
module Modal {
  import opened Js

  datatype ModalType = SuccessType | DangerType | WarningType | InfoType

  /** One entry of `MODAL_TYPES`: the icon and the three style classes. */
  datatype Config = Config(icon: string, iconClass: string, bgClass: string, buttonClass: string)

  /** The keys of `MODAL_TYPES`. */
  function TypeNamed(name: string): Option<ModalType> {
    if name == "success" then Some(SuccessType)
    else if name == "danger" then Some(DangerType)
    else if name == "warning" then Some(WarningType)
    else if name == "info" then Some(InfoType)
    else None
  }

  function ConfigOf(t: ModalType): Config {
    match t
    case SuccessType => Config("CheckCircleIcon", "text-green-600", "bg-green-100", "bg-green-600 hover:bg-green-500")
    case DangerType => Config("ExclamationCircleIcon", "text-red-600", "bg-red-100", "bg-red-600 hover:bg-red-500")
    case WarningType => Config("ExclamationTriangleIcon", "text-yellow-600", "bg-yellow-100", "bg-yellow-600 hover:bg-yellow-500")
    case InfoType => Config("InformationCircleIcon", "text-blue-600", "bg-blue-100", "bg-blue-600 hover:bg-blue-500")
  }

  /** The properties every object literal inherits from `Object.prototype`.
      Each is a function or (`__proto__`) an object, so it is truthy. */
  const PrototypeNames: set<string> := {"constructor", "hasOwnProperty", "isPrototypeOf",
    "propertyIsEnumerable", "toLocaleString", "toString", "valueOf", "__proto__",
    "__defineGetter__", "__defineSetter__", "__lookupGetter__", "__lookupSetter__"}

  /** What `MODAL_TYPES[type] || MODAL_TYPES.info` yields: a configuration,
      or the inherited prototype member of that name, which is truthy and so
      is not replaced by `info`, but has none of the configuration's fields. */
  datatype Selected = Configured(config: Config) | Inherited(member: string)

  /** `MODAL_TYPES[type] || MODAL_TYPES.info`. */
  function Lookup(name: string): (c: Selected)
    ensures TypeNamed(name).Some? ==> c == Configured(ConfigOf(TypeNamed(name).value))
    ensures TypeNamed(name).None? && name !in PrototypeNames ==> c == Configured(ConfigOf(InfoType))
    ensures name in PrototypeNames <==> c.Inherited?
  {
    match TypeNamed(name)
    case Some(t) => Configured(ConfigOf(t))
    case None => if name in PrototypeNames then Inherited(name) else Configured(ConfigOf(InfoType))
  }

  /** The props a caller passes; None stands for an omitted (undefined) prop. */
  datatype Props = Props(
    open: bool,
    typeName: Option<string>,
    confirmText: Option<string>,
    cancelText: Option<string>,
    showCancel: Option<bool>,
    hasOnConfirm: bool)

  /** The props after the default parameter values are applied. */
  datatype Resolved = Resolved(typeName: string, config: Selected, confirmText: string, cancelText: string, showCancel: bool)

  function OrDefault<T>(o: Option<T>, d: T): T {
    match o
    case Some(v) => v
    case None => d
  }

  function Resolve(p: Props): (r: Resolved)
    ensures r.config == Lookup(r.typeName)
  {
    var name := OrDefault(p.typeName, "info");
    Resolved(name, Lookup(name), OrDefault(p.confirmText, "Confirm"), OrDefault(p.cancelText, "Cancel"),
             OrDefault(p.showCancel, true))
  }

  /** Omitted props fall back to the information style, "Confirm", "Cancel"
      and a visible cancel button; a given prop always wins. */
  lemma Defaults(p: Props)
    ensures p.typeName.None? ==> Resolve(p).config == Configured(ConfigOf(InfoType))
    ensures p.confirmText.None? ==> Resolve(p).confirmText == "Confirm"
    ensures p.cancelText.None? ==> Resolve(p).cancelText == "Cancel"
    ensures p.showCancel.None? ==> Resolve(p).showCancel
    ensures p.confirmText.Some? ==> Resolve(p).confirmText == p.confirmText.value
    ensures p.cancelText.Some? ==> Resolve(p).cancelText == p.cancelText.value
    ensures p.showCancel.Some? ==> Resolve(p).showCancel == p.showCancel.value
  {
  }

  /** A name that is neither a key of `MODAL_TYPES` nor an inherited
      property gets the information configuration; an inherited property name
      gets no configuration at all. */
  lemma UnknownTypeIsInfo(name: string)
    requires name !in {"success", "danger", "warning", "info"}
    ensures name !in PrototypeNames ==> Lookup(name) == Configured(ConfigOf(InfoType))
    ensures name in PrototypeNames ==> Lookup(name) == Inherited(name)
  {
  }

  datatype Button = ConfirmButton | CancelButton

  /** The buttons the dialog renders, with their labels. */
  function Buttons(p: Props): (bs: seq<(Button, string)>)
    ensures |bs| >= 1 && bs[0] == (ConfirmButton, Resolve(p).confirmText)
    ensures (exists i :: 0 <= i < |bs| && bs[i].0 == CancelButton) <==> Resolve(p).showCancel
  {
    var r := Resolve(p);
    var bs := [(ConfirmButton, r.confirmText)] + (if r.showCancel then [(CancelButton, r.cancelText)] else []);
    assert r.showCancel ==> bs[1].0 == CancelButton;
    bs
  }

  /** A callback the dialog invokes. */
  datatype Effect = CallOnConfirm | CallOnClose(value: bool)

  /** The callbacks a button press fires, in order: confirm calls `onConfirm`
      (when given, without awaiting it) and then `onClose(false)`; cancel calls
      only `onClose(false)`. */
  function Press(p: Props, b: Button): (es: seq<Effect>)
    ensures |es| >= 1 && es[|es| - 1] == CallOnClose(false)
    ensures forall i :: 0 <= i < |es| - 1 ==> es[i] == CallOnConfirm
    ensures CallOnConfirm in es <==> b == ConfirmButton && p.hasOnConfirm
  {
    match b
    case ConfirmButton => (if p.hasOnConfirm then [CallOnConfirm] else []) + [CallOnClose(false)]
    case CancelButton => [CallOnClose(false)]
  }

  /** What the dialog does when dismissed by the backdrop or Escape: `onClose(false)`. */
  function Dismiss(p: Props): seq<Effect> {
    [CallOnClose(false)]
  }

  /** Confirm always ends with exactly one `onClose(false)`, and calls
      `onConfirm` before it exactly when one is given. */
  lemma ConfirmProtocol(p: Props)
    ensures var es := Press(p, ConfirmButton);
      && |es| >= 1 && es[|es| - 1] == CallOnClose(false)
      && (forall i :: 0 <= i < |es| - 1 ==> es[i] == CallOnConfirm)
      && (CallOnConfirm in es <==> p.hasOnConfirm)
      && |es| == (if p.hasOnConfirm then 2 else 1)
  {
  }

  /** Cancel never calls `onConfirm`; it only closes. */
  lemma CancelProtocol(p: Props)
    ensures CallOnConfirm !in Press(p, CancelButton)
    ensures Press(p, CancelButton) == Dismiss(p)
  {
  }
}
