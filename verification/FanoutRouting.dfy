/**
 * Who in a room gets a message, and how. Agent ids are taken as already normalised; what the
 * program reads off a body by pattern is a record of marks.
 */
module FanoutRouting {
  import opened Basics
  import opened Minis

  datatype Seat = Mini(n: int) | Worker(n: int) | Manager | Secretary | Named(name: string)

  datatype Kind = Claim | Done | Blocked | Fyi | Status | Broadcast | Msg

  /** Which of the program's patterns the trimmed body matches. */
  datatype Marks = Marks(substanceLine: bool, test: bool, miniAck: bool, standingBy: bool, ack: bool)

  datatype Delivery = Rich | Thin | Skip

  datatype Room = Room(leads: seq<Seat>, lead: Option<Seat>, leadWorkers: seq<Seat>,
                       supervisor: Option<Seat>, members: seq<Seat>)

  datatype Grid = Grid(cols: nat, rows: nat, max: nat, leads: seq<int>)

  predicate IsSubstance(kind: Kind, body: Marks) {
    kind in {Claim, Done, Blocked, Broadcast, Status} || body.substanceLine
  }

  predicate IsNoise(kind: Kind, body: Marks) {
    body.test || body.miniAck || body.standingBy
    || (kind == Msg && !IsSubstance(kind, body) && body.ack)
  }

  function RoomLeads(room: Room): seq<Seat> {
    if room.leads != [] then room.leads
    else match room.lead case Some(l) => [l] case None => []
  }

  function Supervisor(room: Room): Seat {
    room.supervisor.GetOr(Secretary)
  }

  predicate SpeaksAsLead(room: Room, sender: Seat) {
    sender in RoomLeads(room) || sender in room.leadWorkers
  }

  function SeatRowLead(seat: Seat, grid: Grid): Result<Option<Seat>, NotEnoughMinis>
    requires grid.cols >= 1
  {
    if !seat.Mini? then Ok(None)
    else
      match RowLead(seat.n, grid.cols, grid.rows, grid.max, grid.leads)
      case Err(e) => Err(e)
      case Ok(None) => Ok(None)
      case Ok(Some(n)) => Ok(Some(Mini(n)))
  }

  /** The program's guard sequence; an overfull grid makes the row lookup fail. */
  function Resolve(target: Seat, sender: Seat, kind: Kind, body: Marks, room: Room, grid: Grid)
    : Result<Delivery, NotEnoughMinis>
    requires grid.cols >= 1
  {
    if target == sender then Ok(Skip)
    else
      var lookup := if sender.Mini? && !SpeaksAsLead(room, sender) then SeatRowLead(sender, grid) else Ok(None);
      match lookup
      case Err(e) => Err(e)
      case Ok(rowLead) =>
        if target == Manager then Ok(ForManager(sender, kind, body, room))
        else if target == Supervisor(room) || target == Secretary then
          Ok(if IsNoise(kind, body) then Skip else if IsSubstance(kind, body) then Rich else Skip)
        else if rowLead == Some(target) && sender.Mini? then
          Ok(if IsNoise(kind, body) then Thin else Rich)
        else if target in room.leadWorkers && IsSubstance(kind, body) then Ok(Rich)
        else if target in RoomLeads(room) && sender.Mini? then
          match SeatRowLead(sender, grid) {
            case Err(e) => Err(e)
            case Ok(own) =>
              if own.Some? && own != Some(target) then Ok(Skip) else Ok(ForMember(target, kind, body, room))
          }
        else Ok(ForMember(target, kind, body, room))
  }

  function ForManager(sender: Seat, kind: Kind, body: Marks, room: Room): Delivery {
    if kind == Broadcast then Rich
    else if IsNoise(kind, body) then Skip
    else if !IsSubstance(kind, body) then Skip
    else if sender.Mini? && !SpeaksAsLead(room, sender) then Skip
    else if SpeaksAsLead(room, sender) || sender == Supervisor(room)
            || sender == Manager || sender == Secretary then Rich
    else Skip
  }

  function ForMember(target: Seat, kind: Kind, body: Marks, room: Room): Delivery {
    if target !in room.members then Skip
    else if IsNoise(kind, body) && target.Mini? then Skip
    else Thin
  }

  // ---------------------------------------------------------------------------
  // Row minis report to their own row lead
  // ---------------------------------------------------------------------------

  ghost predicate FullGrid(grid: Grid) {
    grid.cols >= 1 && grid.max == grid.cols * grid.rows && GoodLeads(grid.max, grid.leads) && |grid.leads| == grid.rows
  }

  /** The room's leads are the grid's leads, and none of them also holds another office. */
  ghost predicate LedByRows(room: Room, grid: Grid) {
    && |RoomLeads(room)| == |grid.leads|
    && (forall r :: 0 <= r < |grid.leads| ==> RoomLeads(room)[r] == Mini(grid.leads[r]))
    && (forall r :: 0 <= r < |grid.leads| ==> Mini(grid.leads[r]) != Supervisor(room))
    && (forall r :: 0 <= r < |grid.leads| ==> Mini(grid.leads[r]) !in room.leadWorkers)
  }

  /** Where a mini that is not a lead sits on a full grid: never in column 0. */
  lemma NonLeadCell(cols: nat, rows: nat, leads: seq<int>, n: int) returns (row: nat, col: nat)
    requires cols >= 1 && GoodLeads(cols * rows, leads) && |leads| == rows
    requires 1 <= n <= cols * rows && n !in leads
    ensures WantOrder(cols, rows, cols * rows, leads).Ok?
    ensures row < rows && 1 <= col < cols
    ensures var order := WantOrder(cols, rows, cols * rows, leads).value;
            row * cols + col < |order| && order[row * cols + col] == n
    ensures RowLead(n, cols, rows, cols * rows, leads) == Ok(Some(leads[row]))
  {
    var idx := CellOf(cols, rows, leads, n);
    row, col := SplitCell(idx, cols, rows);
    if col == 0 {
      LeadCell(cols, rows, leads, row);
    }
    RowLeadInvertsOrder(cols, rows, leads, row, col);
  }

  lemma CellOf(cols: nat, rows: nat, leads: seq<int>, n: int) returns (idx: nat)
    requires cols >= 1 && GoodLeads(cols * rows, leads) && |leads| <= rows && 1 <= n <= cols * rows
    ensures WantOrder(cols, rows, cols * rows, leads).Ok?
    ensures var order := WantOrder(cols, rows, cols * rows, leads).value;
            |order| == cols * rows && idx < |order| && order[idx] == n
  {
    WantOrderIsLayout(cols, rows, leads);
    var order := WantOrder(cols, rows, cols * rows, leads).value;
    assert n in order;
    idx :| idx < |order| && order[idx] == n;
  }

  lemma SplitCell(idx: nat, cols: nat, rows: nat) returns (row: nat, col: nat)
    requires cols >= 1 && idx < cols * rows
    ensures row < rows && col < cols && idx == row * cols + col
  {
    row, col := idx / cols, idx % cols;
    if row >= rows {
      MulMonotone(rows, row, cols);
    }
  }

  lemma LeadCell(cols: nat, rows: nat, leads: seq<int>, row: nat)
    requires cols >= 1 && GoodLeads(cols * rows, leads) && |leads| <= rows && row < |leads|
    ensures WantOrder(cols, rows, cols * rows, leads).Ok?
    ensures var order := WantOrder(cols, rows, cols * rows, leads).value;
            row * cols < |order| && order[row * cols] == leads[row] && leads[row] in leads
  {
    WantOrderIsLayout(cols, rows, leads);
  }

  /**
   * Whatever a row mini sends, exactly one lead gets it: the lead at the left of its own row,
   * in full, or in short when it is noise. Every other lead is skipped.
   */
  lemma RowMiniReachesOnlyItsLead(n: int, kind: Kind, body: Marks, room: Room, grid: Grid)
    returns (row: nat, col: nat)
    requires FullGrid(grid) && LedByRows(room, grid)
    requires 1 <= n <= grid.max && n !in grid.leads && Mini(n) !in room.leadWorkers
    ensures WantOrder(grid.cols, grid.rows, grid.max, grid.leads).Ok? && row < grid.rows && col < grid.cols
    ensures var order := WantOrder(grid.cols, grid.rows, grid.max, grid.leads).value;
            row * grid.cols + col < |order| && order[row * grid.cols + col] == n
    ensures forall r :: 0 <= r < |grid.leads| ==>
              Resolve(Mini(grid.leads[r]), Mini(n), kind, body, room, grid)
              == Ok(if r != row then Skip else if IsNoise(kind, body) then Thin else Rich)
  {
    row, col := NonLeadCell(grid.cols, grid.rows, grid.leads, n);
    assert SeatRowLead(Mini(n), grid) == Ok(Some(Mini(grid.leads[row])));
    forall i | 0 <= i < |RoomLeads(room)|
      ensures RoomLeads(room)[i] != Mini(n)
    {
      assert grid.leads[i] in grid.leads;
    }
    forall r | 0 <= r < |grid.leads|
      ensures Resolve(Mini(grid.leads[r]), Mini(n), kind, body, room, grid)
              == Ok(if r != row then Skip else if IsNoise(kind, body) then Thin else Rich)
    {
      assert grid.leads[r] in grid.leads;
      assert RoomLeads(room)[r] in RoomLeads(room);
      assert r != row ==> grid.leads[r] != grid.leads[row];
    }
  }

  /** With more leads than rows, no row mini's message can be routed to anybody else. */
  lemma OverfullGridLosesRowMinis(target: Seat, n: int, kind: Kind, body: Marks, room: Room, grid: Grid)
    requires grid.cols >= 1 && grid.max == grid.cols * grid.rows && GoodLeads(grid.max, grid.leads)
    requires !SpeaksAsLead(room, Mini(n)) && target != Mini(n)
    ensures Resolve(target, Mini(n), kind, body, room, grid).Err? <==> |grid.leads| > grid.rows
  {
    WantOrderIsLayout(grid.cols, grid.rows, grid.leads);
  }

  // ---------------------------------------------------------------------------
  // What the coordinators see
  // ---------------------------------------------------------------------------

  /**
   * The manager's inbox, exactly: broadcasts, and non-noise substance from a lead, a lead worker,
   * or (when it is not itself a row mini) the supervisor or the secretary.
   */
  lemma ManagerHearsLeadsOnly(sender: Seat, kind: Kind, body: Marks, room: Room, grid: Grid)
    requires grid.cols >= 1 && sender != Manager
    requires Resolve(Manager, sender, kind, body, room, grid).Ok?
    ensures var d := Resolve(Manager, sender, kind, body, room, grid).value;
            d != Thin
            && (d == Rich <==>
                  kind == Broadcast
                  || (IsSubstance(kind, body) && !IsNoise(kind, body)
                      && (SpeaksAsLead(room, sender)
                          || (!sender.Mini? && sender in {Supervisor(room), Secretary}))))
  {
  }

  /**
   * Noise never arrives in full, except a broadcast at the manager and substance at a lead
   * worker; and a message that is neither noise nor substance never reaches a coordinator.
   */
  lemma NoiseNeverArrivesInFull(target: Seat, sender: Seat, kind: Kind, body: Marks, room: Room, grid: Grid)
    requires grid.cols >= 1 && Resolve(target, sender, kind, body, room, grid).Ok?
    ensures IsNoise(kind, body) && Resolve(target, sender, kind, body, room, grid) == Ok(Rich)
        ==> (target == Manager && kind == Broadcast)
            || (target in room.leadWorkers && target != Secretary && target != Supervisor(room)
               && IsSubstance(kind, body))
    ensures !IsSubstance(kind, body) && target in {Manager, Secretary, Supervisor(room)}
        ==> Resolve(target, sender, kind, body, room, grid) == Ok(Skip)
  {
  }

  lemma RowLeadIsALead(seat: Seat, grid: Grid)
    requires grid.cols >= 1
    ensures var l := SeatRowLead(seat, grid);
            l.Ok? && l.value.Some? ==> l.value.value.Mini? && l.value.value.n in grid.leads
  {
  }

  /** A full delivery to a seat that is no coordinator and no lead worker comes from the seat's own row. */
  lemma FullDeliveryHasOffice(target: Seat, sender: Seat, kind: Kind, body: Marks, room: Room, grid: Grid)
    requires grid.cols >= 1 && Resolve(target, sender, kind, body, room, grid) == Ok(Rich)
    requires target !in {Manager, Secretary, Supervisor(room)} && target !in room.leadWorkers
    ensures sender.Mini? && target.Mini? && target.n in grid.leads && !SpeaksAsLead(room, sender)
    ensures SeatRowLead(sender, grid) == Ok(Some(target))
  {
    RowLeadIsALead(sender, grid);
  }

  // ---------------------------------------------------------------------------
  // Who gets what
  // ---------------------------------------------------------------------------

  /** The room's leads: its list, or else its one lead. */
  predicate Leads(target: Seat, room: Room) {
    target in room.leads || (room.leads == [] && room.lead == Some(target))
  }

  /** The supervisor, where one is named, and always the secretary. */
  predicate Coordinates(target: Seat, room: Room) {
    target == Secretary || room.supervisor == Some(target)
  }

  /** Worth telling by its kind, or by a line in its body. */
  predicate Telling(kind: Kind, body: Marks) {
    kind == Claim || kind == Done || kind == Blocked || kind == Broadcast || kind == Status || body.substanceLine
  }

  /** Tests, acknowledgements of minis and standing by; and a plain acknowledgement that tells nothing. */
  predicate Noisy(kind: Kind, body: Marks) {
    body.test || body.miniAck || body.standingBy || (kind == Msg && !body.substanceLine && body.ack)
  }

  /** The target is the lead of the sender's row, and the sender does not speak as a lead itself. */
  predicate FromOwnRow(target: Seat, sender: Seat, room: Room, grid: Grid)
    requires grid.cols >= 1
  {
    sender.Mini? && !Leads(sender, room) && sender !in room.leadWorkers && SeatRowLead(sender, grid) == Ok(Some(target))
  }

  /** The target leads, but the sender's row belongs to another lead. */
  predicate FromOtherRow(target: Seat, sender: Seat, room: Room, grid: Grid)
    requires grid.cols >= 1
  {
    var lead := SeatRowLead(sender, grid);
    Leads(target, room) && sender.Mini? && lead.Ok? && lead.value.Some? && lead.value.value != target
  }

  /** The supervisor and the secretary get exactly the substance that is not noise, and get it in full. */
  lemma CoordinatorsGetSubstance(target: Seat, sender: Seat, kind: Kind, body: Marks, room: Room, grid: Grid)
    requires grid.cols >= 1 && Resolve(target, sender, kind, body, room, grid).Ok?
    requires target != sender && target != Manager && Coordinates(target, room)
    ensures var d := Resolve(target, sender, kind, body, room, grid).value;
            d != Thin && (d == Rich <==> Telling(kind, body) && !Noisy(kind, body))
  {
  }

  /**
   * Every other seat, exactly. In full: what its own row sends, unless it is noise, and substance to a
   * lead worker. In short: noise of its own row, and to a room member all the rest but noise to a
   * mini and what the minis of another lead's row send to a lead.
   */
  lemma MembersGetIff(target: Seat, sender: Seat, kind: Kind, body: Marks, room: Room, grid: Grid)
    requires grid.cols >= 1 && Resolve(target, sender, kind, body, room, grid).Ok?
    requires target != sender && target != Manager && !Coordinates(target, room)
    ensures var d := Resolve(target, sender, kind, body, room, grid).value;
            var own, noise := FromOwnRow(target, sender, room, grid), Noisy(kind, body);
            var worked := target in room.leadWorkers && Telling(kind, body);
            && (d == Rich <==> (own && !noise) || (!own && worked))
            && (d == Thin <==>
                  || (own && noise)
                  || (!own && !worked && target in room.members && !(noise && target.Mini?)
                      && !FromOtherRow(target, sender, room, grid)))
  {
  }

  /** Nobody hears itself, and routing fails only where the sender's row cannot be looked up. */
  lemma FailsOnlyByRow(target: Seat, sender: Seat, kind: Kind, body: Marks, room: Room, grid: Grid)
    requires grid.cols >= 1
    ensures target == sender ==> Resolve(target, sender, kind, body, room, grid) == Ok(Skip)
    ensures Resolve(target, sender, kind, body, room, grid).Err? ==> SeatRowLead(sender, grid).Err? && target != sender
    ensures SeatRowLead(sender, grid).Err? && target != sender && !SpeaksAsLead(room, sender)
        ==> Resolve(target, sender, kind, body, room, grid).Err?
  {
  }
}
