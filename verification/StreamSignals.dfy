/** Notifications from the supervisor that a stream can be read, and what readers acknowledge. */
module StreamSignals {
  import opened StreamDrain

  /** One session's signals; every method runs under the session's mutex. */
  class RuntimeSignals {
    const launch: string
    var notifications: map<StreamKind, int>
    var exited: bool
    /** The furthest offset announced, and the furthest acknowledged, for each stream. */
    ghost var announced: map<StreamKind, int>
    ghost var acknowledged: map<StreamKind, int>

    constructor (launch: string)
      ensures Valid() && this.launch == launch && !exited && notifications == map[]
      ensures announced == acknowledged == map[Stdout := -1, Stderr := -1]
    {
      this.launch, notifications, exited := launch, map[], false;
      announced, acknowledged := map[Stdout := -1, Stderr := -1], map[Stdout := -1, Stderr := -1];
      new;
      forall kind: StreamKind
        ensures kind in announced && kind in acknowledged
      {
        if kind != Stdout { assert kind == Stderr; }
      }
    }

    /** An announcement beyond everything acknowledged is never lost. */
    ghost predicate Valid()
      reads this
    {
      forall kind: StreamKind ::
        kind in announced && kind in acknowledged &&
        (kind in notifications ==> notifications[kind] <= announced[kind]) &&
        (announced[kind] > acknowledged[kind] ==> kind in notifications && notifications[kind] == announced[kind])
    }

    method Notify(kind: StreamKind, offset: nat)
      requires Valid()
      modifies this
      ensures Valid() && exited == old(exited) && acknowledged == old(acknowledged)
      ensures announced == old(announced)[kind := if offset > old(announced)[kind] then offset else old(announced)[kind]]
      ensures notifications == old(notifications)[kind := if kind in old(notifications) && offset <= old(notifications)[kind] then old(notifications)[kind] else offset]
    {
      if kind !in notifications || offset > notifications[kind] { notifications := notifications[kind := offset]; }
      if offset > announced[kind] { announced := announced[kind := offset]; }
    }

    method Exited()
      requires Valid()
      modifies this
      ensures Valid() && exited && notifications == old(notifications) && announced == old(announced) && acknowledged == old(acknowledged)
    {
      exited := true;
    }

    /** A reader at `offset` may read; it is never turned away while more was announced than acknowledged. */
    method Reserve(token: string, kind: StreamKind, offset: int) returns (ok: bool)
      requires Valid()
      ensures ok <==> token == launch && !exited && kind in notifications && notifications[kind] >= offset
      ensures token == launch && !exited && announced[kind] > acknowledged[kind] && offset <= announced[kind] ==> ok
    {
      ok := token == launch && !exited && kind in notifications && notifications[kind] >= offset;
    }

    /** Bytes up to `committed` were persisted; announcements that arrived during the reading stay. */
    method Acknowledge(token: string, kind: StreamKind, committed: int)
      requires Valid()
      modifies this
      ensures Valid() && exited == old(exited) && announced == old(announced)
      ensures token != launch ==> notifications == old(notifications) && acknowledged == old(acknowledged)
      ensures token == launch ==>
                acknowledged == old(acknowledged)[kind := if committed > old(acknowledged)[kind] then committed else old(acknowledged)[kind]] &&
                notifications == if kind in old(notifications) && old(notifications)[kind] <= committed then old(notifications) - {kind} else old(notifications)
    {
      if token != launch { return; }
      if kind in notifications && notifications[kind] <= committed { notifications := notifications - {kind}; }
      if committed > acknowledged[kind] { acknowledged := acknowledged[kind := committed]; }
    }
  }
}
