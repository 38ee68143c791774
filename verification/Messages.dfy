/** Messages as a queue stores them, and the edits an `update` or a `modify` makes to one. */
module Messages {

  datatype Option<+T> = None | Some(value: T)

  datatype Action = Publish | Modify | Update | Replace | Remove

  datatype Message = Message(
    action: Action,
    limit: nat,
    birthtime: int,
    lifetime: int,
    cursor: int,
    identity: string,
    content: Option<string>,
    key: int,
    persistent: bool)
  {
    function DeathTime(): int {
      birthtime + lifetime
    }

    /** Named as in the source: such a message is delivered but never stored. */
    predicate Unlimited() {
      lifetime == 0 || limit == 0
    }

    /** The stored form: only an unset birthtime is replaced by the clock. */
    function Born(now: int): Message {
      if birthtime == 0 then this.(birthtime := now) else this
    }

    /** An `update` takes the incoming birthtime as it is, even when it is unset. */
    function UpdatedBy(m: Message): (r: Message)
      ensures r == m.(action := action, cursor := cursor, identity := identity, persistent := persistent)
      ensures r.DeathTime() == m.DeathTime()
    {
      this.(limit := m.limit, birthtime := m.birthtime, lifetime := m.lifetime, content := m.content, key := m.key)
    }

    /** A `modify` leaves both times alone. */
    function ModifiedBy(m: Message): (r: Message)
      ensures r == m.(action := action, cursor := cursor, identity := identity, persistent := persistent,
        birthtime := birthtime, lifetime := lifetime)
      ensures r.DeathTime() == DeathTime()
    {
      this.(limit := m.limit, content := m.content, key := m.key)
    }

    /** What a matching stored message becomes under an incoming `update` or `modify`. */
    function EditedBy(m: Message): Message {
      if identity != m.identity then this
      else if m.action.Update? then UpdatedBy(m)
      else ModifiedBy(m)
    }
  }
}
