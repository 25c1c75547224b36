/** The modal hook (src/hooks/useModal.ts): one record holding whether a modal
    is open, which one (a type tag), and an optional payload. */
module Modal {

  import opened Wrappers

  /** `{ isOpen, type, data? }`; `kind` is the `type: string | null` tag and
      `data` is None when the payload is undefined. */
  datatype ModalState<D> = ModalState(isOpen: bool, kind: Option<string>, data: Option<D>)

  /** The hook's initial state: the caller's, or closed with no type. */
  function Initial<D>(provided: Option<ModalState<D>>): (m: ModalState<D>)
    ensures provided.None? ==> !m.isOpen && m.kind == None && m.data == None
    ensures provided.Some? ==> m == provided.value
  {
    provided.GetOr(ModalState(false, None, None))
  }

  /** `openModal(type, data?)`: the whole record is replaced. */
  function Open<D>(m: ModalState<D>, kind: string, data: Option<D>): (r: ModalState<D>)
    ensures r.isOpen && r.kind == Some(kind) && r.data == data
  {
    ModalState(true, Some(kind), data)
  }

  /** `closeModal()`: closed, with type and payload kept. */
  function Close<D>(m: ModalState<D>): (r: ModalState<D>)
    ensures !r.isOpen && r.kind == m.kind && r.data == m.data
  {
    m.(isOpen := false)
  }

  /** `setModalData(data)`: the payload replaced, nothing else. */
  function SetData<D>(m: ModalState<D>, data: Option<D>): (r: ModalState<D>)
    ensures r.data == data && r.isOpen == m.isOpen && r.kind == m.kind
  {
    m.(data := data)
  }

  /** Opening forgets everything about the state it started from. */
  lemma OpenForgetsPrevious<D>(m1: ModalState<D>, m2: ModalState<D>, kind: string, data: Option<D>)
    ensures Open(m1, kind, data) == Open(m2, kind, data)
  {
  }

  /** Closing twice is closing once, and closing a closed modal changes nothing. */
  lemma CloseIdempotent<D>(m: ModalState<D>)
    ensures Close(Close(m)) == Close(m)
    ensures !m.isOpen ==> Close(m) == m
  {
  }

  /** Closing and replacing the payload do not interfere. */
  lemma CloseCommutesWithSetData<D>(m: ModalState<D>, data: Option<D>)
    ensures Close(SetData(m, data)) == SetData(Close(m), data)
  {
  }

  /** Closing right after opening leaves the type and payload that were opened. */
  lemma CloseAfterOpen<D>(m: ModalState<D>, kind: string, data: Option<D>)
    ensures Close(Open(m, kind, data)) == ModalState(false, Some(kind), data)
  {
  }
}
