// Which credit brackets reach the status row (src/credit.c), and which of their
// cells the row admits (src/chat_app.c). The roles are specified by what they must be
// and not by how they are picked; the specification determines them, so the passes
// over the brackets are proved against it and nothing else.
module StatusCells {
  import opened Common

  datatype Window = Purse | Rolling5h | Hour | Day | Week | Period
  datatype Kind = Left | Spent
  datatype State = Unknown | Known | Exhausted

  datatype Bracket = Bracket(window: Window, kind: Kind, state: State, value: real, limit: real)

  const BRACKETS_MAX: nat := 8
  const CELLS_MAX: nat := 3

  function SpanRank(w: Window): nat {
    match w
    case Purse => 4
    case Period => 3
    case Week => 2
    case Day => 1
    case Hour => 0
    case Rolling5h => 0
  }

  // credit_pressure: how close a bracket is to refusing a request; -1 for a
  // spend meter or an unknown one.
  function Pressure(b: Bracket): real {
    if b.state == Exhausted then 2.0
    else if b.state != Known || b.kind == Spent then -1.0
    else if b.limit > 0.0 then
      var used := 1.0 - b.value / b.limit;
      if used < 0.0 then 0.0 else if used > 1.0 then 1.0 else used
    else 0.0
  }

  // A bracket a role may still take.
  predicate Free(i: int, skip1: int, skip2: int) { i != skip1 && i != skip2 }

  // The most pressed free bracket, the earlier one on a tie; -1 when only spend
  // meters and unknown brackets are left.
  ghost predicate MostPressed(b: seq<Bracket>, best: int, skip1: int, skip2: int) {
    && -1 <= best < |b|
    && (best >= 0 ==> Free(best, skip1, skip2) && Pressure(b[best]) > -1.0)
    && (best >= 0 ==> forall i :: 0 <= i < |b| && Free(i, skip1, skip2) && i != best ==>
      if i < best then Pressure(b[i]) < Pressure(b[best]) else Pressure(b[i]) <= Pressure(b[best]))
    && (best < 0 ==> forall i :: 0 <= i < |b| && Free(i, skip1, skip2) ==> Pressure(b[i]) <= -1.0)
  }

  method PickGate(b: seq<Bracket>, skip1: int, skip2: int) returns (best: int)
    ensures MostPressed(b, best, skip1, skip2)
  {
    best := -1;
    var bestP := -1.0;
    for i := 0 to |b|
      invariant -1 <= best < i
      invariant best < 0 ==> bestP == -1.0
      invariant best >= 0 ==> Free(best, skip1, skip2) && bestP == Pressure(b[best]) > -1.0
      invariant forall j :: 0 <= j < i && Free(j, skip1, skip2) ==> Pressure(b[j]) <= bestP
      invariant best >= 0 ==> forall j :: 0 <= j < best && Free(j, skip1, skip2) ==> Pressure(b[j]) < bestP
    {
      if i == skip1 || i == skip2 {
        continue;
      }
      var p := Pressure(b[i]);
      if p > bestP {
        best, bestP := i, p;
      }
    }
  }

  // What is left of a capped window, as a share of it; all of it where there is no cap.
  function ShareLeft(b: Bracket): real {
    if b.limit <= 0.0 || b.value >= b.limit then 1.0 else if b.value <= 0.0 then 0.0 else b.value / b.limit
  }

  // The gate is the bracket nearest to refusing a request: an exhausted one if there is
  // one, else the remaining figure with the smallest share left, the earlier of two
  // alike; a spend meter or an unknown figure never.
  lemma GateIsNearest(b: seq<Bracket>, best: int, skip1: int, skip2: int, i: int)
    requires MostPressed(b, best, skip1, skip2) && 0 <= i < |b| && Free(i, skip1, skip2)
    ensures b[i].state == Exhausted ==> best >= 0 && b[best].state == Exhausted && best <= i
    ensures b[i].state == Known && b[i].kind == Left ==> best >= 0
    ensures best >= 0 && b[best].state != Exhausted ==> b[best].state == Known && b[best].kind == Left
    ensures best >= 0 && b[best].state == b[i].state == Known && b[i].kind == Left ==>
      ShareLeft(b[best]) <= ShareLeft(b[i]) && (i < best ==> ShareLeft(b[best]) < ShareLeft(b[i]))
  {
    if best >= 0 {
      PressureIsShare(b[best]);
      PressureIsShare(b[i]);
    } else {
      PressureIsShare(b[i]);
    }
  }

  lemma PressureIsShare(x: Bracket)
    ensures x.state == Known && x.kind == Left ==> Pressure(x) == 1.0 - ShareLeft(x) && 0.0 <= ShareLeft(x) <= 1.0
  {
    if x.limit > 0.0 {
      ShareOf(x.value, x.limit);
    }
  }

  lemma ShareOf(value: real, limit: real)
    requires limit > 0.0
    ensures value >= limit <==> value / limit >= 1.0
    ensures value <= 0.0 <==> value / limit <= 0.0
  {
    var q := value / limit;
    assert q * limit == value;
    if q >= 1.0 { assert q * limit >= limit; }
    if q < 1.0 { assert q * limit < limit; }
  }

  predicate Candidate(b: Bracket, kind: Kind) { b.state != Unknown && b.kind == kind }

  // The longest window of a kind among the free brackets, the later one on a tie.
  ghost predicate Longest(b: seq<Bracket>, best: int, skip1: int, skip2: int, kind: Kind) {
    && -1 <= best < |b|
    && (best >= 0 ==> Free(best, skip1, skip2) && Candidate(b[best], kind))
    && (best >= 0 ==> forall i :: 0 <= i < |b| && Free(i, skip1, skip2) && Candidate(b[i], kind) && i != best ==>
      if i > best then SpanRank(b[i].window) < SpanRank(b[best].window) else SpanRank(b[i].window) <= SpanRank(b[best].window))
    && (best < 0 ==> forall i :: 0 <= i < |b| && Free(i, skip1, skip2) ==> !Candidate(b[i], kind))
  }

  method PickLongest(b: seq<Bracket>, skip1: int, skip2: int, kind: Kind) returns (best: int)
    ensures Longest(b, best, skip1, skip2, kind)
  {
    best := -1;
    var bestRank: int := -1;
    for i := 0 to |b|
      invariant -1 <= best < i
      invariant best < 0 ==> bestRank == -1
      invariant best >= 0 ==> Free(best, skip1, skip2) && Candidate(b[best], kind) && bestRank == SpanRank(b[best].window)
      invariant forall j :: 0 <= j < i && Free(j, skip1, skip2) && Candidate(b[j], kind) ==>
        SpanRank(b[j].window) < bestRank || (SpanRank(b[j].window) == bestRank && j <= best)
    {
      if i == skip1 || i == skip2 {
        continue;
      }
      if b[i].state == Unknown || b[i].kind != kind {
        continue;
      }
      var r := SpanRank(b[i].window);
      if r >= bestRank {
        best, bestRank := i, r;
      }
    }
  }

  // A purse outlasts a paid period, that a week, that a day, and that any hours.
  predicate Outlasts(a: Window, b: Window) {
    match a
    case Purse => b != Purse
    case Period => b != Purse && b != Period
    case Week => b == Day || b == Hour || b == Rolling5h
    case Day => b == Hour || b == Rolling5h
    case Hour => false
    case Rolling5h => false
  }

  // No candidate outlasts the longest one, and none after it lasts as long.
  lemma LongestOutlasts(b: seq<Bracket>, best: int, skip1: int, skip2: int, kind: Kind, i: int)
    requires Longest(b, best, skip1, skip2, kind) && 0 <= i < |b| && Free(i, skip1, skip2) && b[i].state != Unknown && b[i].kind == kind
    ensures best >= 0 && b[best].state != Unknown && b[best].kind == kind
    ensures !Outlasts(b[i].window, b[best].window) && (i > best ==> Outlasts(b[best].window, b[i].window))
  {
    assert Candidate(b[i], kind);
  }

  datatype Role = Gate | Budget | Middle

  function RankOf(r: Role): nat {
    match r case Budget => 1 case Gate => 2 case Middle => 3
  }

  datatype Roles = Roles(gate: int, budget: int, middle: int)

  // The three roles: the longest remaining figure (a spend meter only when nothing
  // remains anywhere), then the two most pressed of the rest.
  ghost predicate Picked(b: seq<Bracket>, r: Roles) {
    && (if exists i :: 0 <= i < |b| && Candidate(b[i], Left) then Longest(b, r.budget, -1, -1, Left)
        else Longest(b, r.budget, -1, -1, Spent))
    && MostPressed(b, r.gate, r.budget, -1)
    && MostPressed(b, r.middle, r.budget, r.gate)
  }

  // When no pressure is left for MIDDLE, no remaining figure is left either, so the
  // program's second attempt at MIDDLE can never pick anything.
  lemma FallbackNeverPicks(b: seq<Bracket>, skip1: int, skip2: int, i: int)
    requires MostPressed(b, -1, skip1, skip2)
    requires Longest(b, i, skip1, skip2, Left)
    ensures i == -1
  {
  }

  method PickRoles(b: seq<Bracket>) returns (r: Roles)
    ensures Picked(b, r)
  {
    var budget := PickLongest(b, -1, -1, Left);
    if budget < 0 {
      budget := PickLongest(b, -1, -1, Spent);
    }
    var gate := PickGate(b, budget, -1);
    var middle := PickGate(b, budget, gate);
    if middle < 0 {
      var fallback := PickLongest(b, budget, gate, Left);
      FallbackNeverPicks(b, budget, gate, fallback);
      middle := fallback;
    }
    r := Roles(gate, budget, middle);
  }

  // The brackets determine the roles.
  lemma PickedIsUnique(b: seq<Bracket>, r: Roles, s: Roles)
    requires Picked(b, r) && Picked(b, s)
    ensures r == s
  {
    assert r.budget == s.budget;
    assert r.gate == s.gate;
  }

  predicate RolesDistinct(r: Roles) {
    && (r.gate >= 0 ==> r.gate != r.budget && r.gate != r.middle)
    && (r.budget >= 0 ==> r.budget != r.middle)
  }

  predicate InRange(b: seq<Bracket>, i: int) { -1 <= i < |b| && (i >= 0 ==> b[i].state != Unknown) }

  // No bracket plays two roles, none of them is unknown, a spend meter takes the
  // budget only when nothing remains anywhere, and MIDDLE needs a GATE before it.
  lemma RolesAreDistinct(b: seq<Bracket>, r: Roles)
    requires Picked(b, r)
    ensures RolesDistinct(r) && InRange(b, r.gate) && InRange(b, r.budget) && InRange(b, r.middle)
    ensures r.budget >= 0 && b[r.budget].kind == Spent ==> forall i :: 0 <= i < |b| ==> !Candidate(b[i], Left)
    ensures r.budget < 0 <==> forall i :: 0 <= i < |b| ==> b[i].state == Unknown
    ensures r.gate < 0 ==> r.middle < 0
  {
    if r.budget < 0 {
      forall i | 0 <= i < |b| ensures b[i].state == Unknown {
        assert !Candidate(b[i], Left) && !Candidate(b[i], Spent);
      }
    } else {
      assert b[r.budget].state != Unknown;
    }
  }

  datatype Cell = Cell(bracket: nat, rank: nat)

  // The last matching role of the emission loop wins.
  function RoleAt(r: Roles, i: int): Option<Role> {
    if i < 0 then None
    else if r.middle == i then Some(Middle)
    else if r.budget == i then Some(Budget)
    else if r.gate == i then Some(Gate)
    else None
  }

  // The cells of the first n brackets, in declaration order.
  function Chosen(r: Roles, n: nat): seq<Cell> {
    if n == 0 then []
    else Chosen(r, n - 1) + (match RoleAt(r, n - 1) case Some(role) => [Cell(n - 1, RankOf(role))] case None => [])
  }

  lemma ChosenStep(r: Roles, n: nat)
    ensures n == 0 ==> Chosen(r, n) == []
    ensures n > 0 && RoleAt(r, n - 1).None? ==> Chosen(r, n) == Chosen(r, n - 1)
    ensures n > 0 && RoleAt(r, n - 1).Some? ==> Chosen(r, n) == Chosen(r, n - 1) + [Cell(n - 1, RankOf(RoleAt(r, n - 1).value))]
  {
  }

  function Placed(i: int, n: nat): nat { if 0 <= i < n then 1 else 0 }

  predicate Ladder(cells: seq<Cell>, n: nat) {
    && (forall i :: 0 <= i < |cells| ==> cells[i].bracket < n && 1 <= cells[i].rank <= CELLS_MAX)
    && (forall i, j :: 0 <= i < j < |cells| ==> cells[i].bracket < cells[j].bracket)
    && (forall i, j :: 0 <= i < j < |cells| ==> cells[i].rank != cells[j].rank)
  }

  predicate PlacedByRole(r: Roles, c: Cell) {
    match RoleAt(r, c.bracket)
    case Some(role) => c.rank == RankOf(role)
    case None => false
  }

  lemma {:induction false} ChosenHaveRoles(r: Roles, n: nat)
    ensures forall i :: 0 <= i < |Chosen(r, n)| ==> PlacedByRole(r, Chosen(r, n)[i]) && Chosen(r, n)[i].bracket < n
  {
    if n > 0 {
      ChosenHaveRoles(r, n - 1);
    }
  }

  lemma NextCell(r: Roles, before: seq<Cell>, n: nat)
    requires RolesDistinct(r) && Ladder(before, n) && RoleAt(r, n).Some?
    requires forall i :: 0 <= i < |before| ==> PlacedByRole(r, before[i])
    ensures Ladder(before + [Cell(n, RankOf(RoleAt(r, n).value))], n + 1)
  {
    var rank := RankOf(RoleAt(r, n).value);
    forall i | 0 <= i < |before| ensures before[i].rank != rank {
      assert PlacedByRole(r, before[i]) && before[i].bracket < n;
      RanksArePerRole(r, before[i].bracket, n);
    }
    hide RolesDistinct, RoleAt, RankOf;
    LadderGrows(before, n, Cell(n, rank));
  }

  // However many brackets there are, at most one cell per role, each with its own
  // rank, in declaration order.
  lemma {:induction false} ChosenIsALadder(r: Roles, n: nat)
    requires RolesDistinct(r)
    ensures Ladder(Chosen(r, n), n)
  {
    hide Chosen, RolesDistinct, RoleAt, RankOf, PlacedByRole;
    ChosenStep(r, n);
    if n > 0 {
      ChosenIsALadder(r, n - 1);
      ChosenHaveRoles(r, n - 1);
      LadderWidens(Chosen(r, n - 1), n - 1);
      if RoleAt(r, n - 1).Some? {
        NextCell(r, Chosen(r, n - 1), n - 1);
      }
    }
  }

  lemma LadderWidens(cells: seq<Cell>, n: nat)
    requires Ladder(cells, n)
    ensures Ladder(cells, n + 1)
  {
  }

  lemma RanksArePerRole(r: Roles, i: nat, j: nat)
    requires RolesDistinct(r) && i != j && RoleAt(r, i).Some? && RoleAt(r, j).Some?
    ensures RankOf(RoleAt(r, i).value) != RankOf(RoleAt(r, j).value)
  {
  }

  lemma LadderGrows(cells: seq<Cell>, n: nat, c: Cell)
    requires Ladder(cells, n) && c.bracket == n && 1 <= c.rank <= CELLS_MAX
    requires forall i :: 0 <= i < |cells| ==> cells[i].rank != c.rank
    ensures Ladder(cells + [c], n + 1)
  {
  }

  lemma {:induction false} ChosenCountsRoles(r: Roles, n: nat)
    requires RolesDistinct(r)
    ensures |Chosen(r, n)| == Placed(r.gate, n) + Placed(r.budget, n) + Placed(r.middle, n) <= CELLS_MAX
  {
    if n > 0 {
      ChosenCountsRoles(r, n - 1);
    }
  }

  lemma ChosenAreKnown(b: seq<Bracket>, r: Roles, n: nat)
    requires InRange(b, r.gate) && InRange(b, r.budget) && InRange(b, r.middle) && RolesDistinct(r)
    ensures forall c :: c in Chosen(r, n) ==> c.bracket < |b| && b[c.bracket].state != Unknown
  {
    ChosenHaveRoles(r, n);
  }

  // Every role that was given a bracket gets its cell.
  lemma {:induction false} ChosenHasEveryRole(r: Roles, n: nat, k: nat)
    requires k < n && RoleAt(r, k).Some?
    ensures Cell(k, RankOf(RoleAt(r, k).value)) in Chosen(r, n)
  {
    if k < n - 1 {
      ChosenHasEveryRole(r, n - 1, k);
    }
  }

  // nm_credit_status_cells: the selected brackets in declaration order, cut at the
  // caller's capacity.
  method Cells(b: seq<Bracket>, max: nat) returns (cells: seq<Cell>, roles: Roles)
    ensures Picked(b[..if |b| > BRACKETS_MAX then BRACKETS_MAX else |b|], roles)
    ensures var all := Chosen(roles, if |b| > BRACKETS_MAX then BRACKETS_MAX else |b|);
      cells == if |all| <= max then all else all[..max]
    ensures max >= CELLS_MAX ==> cells == Chosen(roles, if |b| > BRACKETS_MAX then BRACKETS_MAX else |b|)
    ensures forall c :: c in cells ==> c.bracket < |b| && b[c.bracket].state != Unknown
  {
    hide Chosen, Picked, InRange, RolesDistinct;
    var n: nat := if |b| > BRACKETS_MAX then BRACKETS_MAX else |b|;
    roles := PickRoles(b[..n]);
    RolesAreDistinct(b[..n], roles);
    cells := [];
    var i := 0;
    ChosenStep(roles, 0);
    while i < n && |cells| < max
      invariant i <= n
      invariant cells == Chosen(roles, i) && |cells| <= max
    {
      ChosenStep(roles, i + 1);
      var role := RoleAt(roles, i);
      if role.Some? {
        cells := cells + [Cell(i, RankOf(role.value))];
      }
      i := i + 1;
    }
    ChosenExtends(roles, i, n);
    ChosenCountsRoles(roles, n);
    ChosenAreKnown(b[..n], roles, i);
  }

  lemma {:induction false} ChosenExtends(r: Roles, i: nat, n: nat)
    requires i <= n
    ensures Chosen(r, i) <= Chosen(r, n)
  {
    if i < n {
      ChosenExtends(r, i, n - 1);
    }
  }

  // ---- Admission to the row (src/chat_app.c). ----

  // Columns taken by the cells whose rank is at most r.
  function Columns(cells: seq<Cell>, width: seq<nat>, r: nat): nat
    requires |width| == |cells|
  {
    if cells == [] then 0
    else (if cells[0].rank <= r then width[0] else 0) + Columns(cells[1..], width[1..], r)
  }

  predicate OneEach(cells: seq<Cell>) {
    && (forall i :: 0 <= i < |cells| ==> 1 <= cells[i].rank <= CELLS_MAX)
    && (forall i, j :: 0 <= i < j < |cells| ==> cells[i].rank != cells[j].rank)
  }

  lemma {:induction false} NoCellOfRank(cells: seq<Cell>, width: seq<nat>, r: nat)
    requires |width| == |cells|
    requires forall i :: 0 <= i < |cells| ==> cells[i].rank != r + 1
    ensures Columns(cells, width, r + 1) == Columns(cells, width, r)
  {
    if cells != [] {
      NoCellOfRank(cells[1..], width[1..], r);
    }
  }

  lemma {:induction false} OneCellOfRank(cells: seq<Cell>, width: seq<nat>, i: nat)
    requires |width| == |cells| && OneEach(cells) && i < |cells|
    ensures Columns(cells, width, cells[i].rank) == Columns(cells, width, cells[i].rank - 1) + width[i]
  {
    if i == 0 {
      assert forall j :: 0 <= j < |cells[1..]| ==> cells[1..][j] == cells[j + 1];
      NoCellOfRank(cells[1..], width[1..], cells[0].rank - 1);
    } else {
      assert forall j :: 0 <= j < |cells[1..]| ==> cells[1..][j] == cells[j + 1];
      OneCellOfRank(cells[1..], width[1..], i - 1);
    }
  }

  lemma {:induction false} ColumnsGrow(cells: seq<Cell>, width: seq<nat>, r: nat, s: nat)
    requires |width| == |cells| && r <= s
    ensures Columns(cells, width, r) <= Columns(cells, width, s)
  {
    if cells != [] {
      ColumnsGrow(cells[1..], width[1..], r, s);
    }
  }

  lemma {:induction false} NothingBelowRankOne(cells: seq<Cell>, width: seq<nat>)
    requires |width| == |cells|
    requires forall i :: 0 <= i < |cells| ==> cells[i].rank >= 1
    ensures Columns(cells, width, 0) == 0
  {
    if cells != [] {
      NothingBelowRankOne(cells[1..], width[1..]);
    }
  }

  // order[k]: the cell of rank k + 1, or -1.
  method ByRank(cells: seq<Cell>) returns (order: seq<int>)
    requires OneEach(cells)
    ensures |order| == CELLS_MAX
    ensures forall k :: 0 <= k < CELLS_MAX ==> -1 <= order[k] < |cells|
    ensures forall k :: 0 <= k < CELLS_MAX && order[k] >= 0 ==> cells[order[k]].rank == k + 1
    ensures forall i :: 0 <= i < |cells| ==> order[cells[i].rank - 1] == i
  {
    order := [-1, -1, -1];
    for i := 0 to |cells|
      invariant |order| == CELLS_MAX
      invariant forall k :: 0 <= k < CELLS_MAX ==> -1 <= order[k] < i
      invariant forall k :: 0 <= k < CELLS_MAX && order[k] >= 0 ==> cells[order[k]].rank == k + 1
      invariant forall j :: 0 <= j < i ==> order[cells[j].rank - 1] == j
    {
      if 1 <= cells[i].rank <= CELLS_MAX {
        order := order[cells[i].rank - 1 := i];
      }
    }
  }

  // A cell is on the row exactly when it and every cell ranked before it fit
  // together, so what is admitted is the longest prefix of the rank order that
  // fits, and the budget (rank 1) is the last figure to leave.
  method Admit(cells: seq<Cell>, width: seq<nat>, avail: int) returns (admitted: seq<bool>)
    requires |width| == |cells| && OneEach(cells)
    ensures |admitted| == |cells|
    ensures forall i :: 0 <= i < |cells| ==> (admitted[i] <==> Columns(cells, width, cells[i].rank) <= avail)
  {
    hide Columns;
    var order := ByRank(cells);
    admitted := seq(|cells|, i => false);
    var used: nat, k := 0, 0;
    NothingBelowRankOne(cells, width);
    while k < CELLS_MAX
      invariant k <= CELLS_MAX && |admitted| == |cells|
      invariant used == Columns(cells, width, k)
      invariant forall i :: 0 <= i < |cells| ==>
        (admitted[i] <==> cells[i].rank <= k && Columns(cells, width, cells[i].rank) <= avail)
      invariant forall i :: 0 <= i < |cells| && cells[i].rank <= k ==> Columns(cells, width, cells[i].rank) <= avail
    {
      var i := order[k];
      if i >= 0 {
        OneCellOfRank(cells, width, i);
        assert forall j :: 0 <= j < |cells| && cells[j].rank == k + 1 ==> j == i;
        if used + width[i] > avail {
          forall j | 0 <= j < |cells| && cells[j].rank > k ensures Columns(cells, width, cells[j].rank) > avail {
            ColumnsGrow(cells, width, k + 1, cells[j].rank);
          }
          return;
        }
        admitted := admitted[i := true];
        used := used + width[i];
      } else {
        NoCellOfRank(cells, width, k);
      }
      k := k + 1;
    }
  }

  function Shown(admitted: seq<bool>, width: seq<nat>): nat
    requires |width| == |admitted|
  {
    if admitted == [] then 0 else (if admitted[0] then width[0] else 0) + Shown(admitted[1..], width[1..])
  }

  ghost predicate AdmittedBy(cells: seq<Cell>, width: seq<nat>, avail: int, admitted: seq<bool>)
    requires |width| == |cells|
  {
    && |admitted| == |cells|
    && forall i :: 0 <= i < |cells| ==> (admitted[i] <==> Columns(cells, width, cells[i].rank) <= avail)
  }

  // What is admitted never exceeds the columns that are left; a dropped cell takes
  // every later rank with it.
  lemma AdmittedFits(cells: seq<Cell>, width: seq<nat>, avail: int, admitted: seq<bool>)
    requires |width| == |cells| && OneEach(cells)
    requires AdmittedBy(cells, width, avail, admitted)
    ensures Shown(admitted, width) == 0 || Shown(admitted, width) <= avail
    ensures forall i, j :: 0 <= i < |cells| && 0 <= j < |cells| && cells[i].rank <= cells[j].rank && admitted[j] ==> admitted[i]
  {
    forall i, j | 0 <= i < |cells| && 0 <= j < |cells| && cells[i].rank <= cells[j].rank && admitted[j] ensures admitted[i] {
      ColumnsGrow(cells, width, cells[i].rank, cells[j].rank);
    }
    var last := LastAdmitted(cells, admitted);
    ShownIsColumns(cells, width, last, admitted);
    NothingBelowRankOne(cells, width);
  }

  // The highest rank that was admitted, 0 when none was.
  function LastAdmitted(cells: seq<Cell>, admitted: seq<bool>): (r: nat)
    requires |admitted| == |cells|
    ensures forall i :: 0 <= i < |cells| && admitted[i] ==> cells[i].rank <= r
    ensures r == 0 || exists i :: 0 <= i < |cells| && admitted[i] && cells[i].rank == r
  {
    if cells == [] then 0
    else
      var rest := LastAdmitted(cells[1..], admitted[1..]);
      assert forall i :: 0 < i < |cells| ==> cells[i] == cells[1..][i - 1] && admitted[i] == admitted[1..][i - 1];
      if admitted[0] && cells[0].rank > rest then cells[0].rank else rest
  }

  lemma {:induction false} ShownIsColumns(cells: seq<Cell>, width: seq<nat>, r: nat, admitted: seq<bool>)
    requires |width| == |cells| == |admitted|
    requires forall i :: 0 <= i < |cells| ==> (admitted[i] <==> cells[i].rank <= r)
    ensures Shown(admitted, width) == Columns(cells, width, r)
  {
    if cells != [] {
      ShownIsColumns(cells[1..], width[1..], r, admitted[1..]);
    }
  }

  // As the row narrows the middle figure leaves first, then the gate, and the budget
  // last of all.
  lemma BudgetLeavesLast(r: Roles, n: nat, width: seq<nat>, avail: int, admitted: seq<bool>, i: nat, j: nat)
    requires RolesDistinct(r) && |width| == |Chosen(r, n)| && OneEach(Chosen(r, n)) && AdmittedBy(Chosen(r, n), width, avail, admitted)
    requires i < |admitted| && j < |admitted| && admitted[j]
    ensures Chosen(r, n)[i].bracket == r.budget ==> admitted[i]
    ensures Chosen(r, n)[i].bracket == r.gate && Chosen(r, n)[j].bracket == r.middle ==> admitted[i]
  {
    ChosenHaveRoles(r, n);
    AdmittedFits(Chosen(r, n), width, avail, admitted);
    hide Chosen, AdmittedBy;
    var a, b := Chosen(r, n)[i], Chosen(r, n)[j];
    assert PlacedByRole(r, a) && PlacedByRole(r, b);
  }
}
