/** Rounds of the proposer rotation (types/validator-set.go) for twelve members in four groups of
    equal power, computed on four priorities and two counts. */
module GroupRounds {
  import opened Priorities

  // ---------------------------------------------------------------- four groups of members

  const POWERS: seq<int> := [3, 30, 30, 30, 30, 30, 30, 30, 122, 122, 122, 165]
  const TOTAL: int := 744

  /** The priorities of one light member, seven middle ones, three heavy ones and a top one. Within
      a group they are equal, but the first `midPaid` or `heavyPaid` have already paid. */
  datatype Groups = Groups(light: int, mid: int, midPaid: nat, heavy: int, heavyPaid: nat, top: int)

  function PriorityAt(g: Groups, i: nat): int {
    if i == 0 then g.light
    else if i < 8 then g.mid - (if i < 1 + g.midPaid then TOTAL else 0)
    else if i < 11 then g.heavy - (if i < 8 + g.heavyPaid then TOTAL else 0)
    else g.top
  }

  function Listed(g: Groups): (r: seq<int>)
    ensures |r| == 12
  {
    seq(12, i requires 0 <= i < 12 => PriorityAt(g, i))
  }

  predicate Proper(g: Groups) {
    g.midPaid < 7 && g.heavyPaid < 3
  }

  /** One round: everybody gains, and of the groups with the highest entry the first one pays. */
  function GroupTurn(g: Groups): Groups {
    var light, mid, heavy, top := g.light + 3, g.mid + 30, g.heavy + 122, g.top + 165;
    if light >= mid && light >= heavy && light >= top then
      Groups(light - TOTAL, mid, g.midPaid, heavy, g.heavyPaid, top)
    else if mid >= heavy && mid >= top then
      if g.midPaid == 6 then Groups(light, mid - TOTAL, 0, heavy, g.heavyPaid, top)
      else Groups(light, mid, g.midPaid + 1, heavy, g.heavyPaid, top)
    else if heavy >= top then
      if g.heavyPaid == 2 then Groups(light, mid, g.midPaid, heavy - TOTAL, 0, top)
      else Groups(light, mid, g.midPaid, heavy, g.heavyPaid + 1, top)
    else Groups(light, mid, g.midPaid, heavy, g.heavyPaid, top - TOTAL)
  }

  /** Who pays. */
  function PayerOf(g: Groups): nat {
    var light, mid, heavy, top := g.light + 3, g.mid + 30, g.heavy + 122, g.top + 165;
    if light >= mid && light >= heavy && light >= top then 0
    else if mid >= heavy && mid >= top then 1 + g.midPaid
    else if heavy >= top then 8 + g.heavyPaid
    else 11
  }

  lemma PowerOfEntry(i: nat)
    requires i < 12
    ensures POWERS[i] == if i == 0 then 3 else if i < 8 then 30 else if i < 11 then 122 else 165
  {
  }

  lemma RaisedAt(g: Groups, i: nat)
    requires i < 12
    ensures |POWERS| == 12
    ensures Raised(Listed(g), POWERS)[i]
         == PriorityAt(g, i) + if i == 0 then 3 else if i < 8 then 30 else if i < 11 then 122 else 165
  {
    PowerOfEntry(i);
  }

  lemma PayerLeads(g: Groups)
    requires Proper(g)
    ensures |POWERS| == 12 && Leads(Raised(Listed(g), POWERS), PayerOf(g))
  {
    hide Raised, Listed;
    var k := PayerOf(g);
    RaisedAt(g, k);
    forall i | 0 <= i < 12
      ensures Raised(Listed(g), POWERS)[i] <= Raised(Listed(g), POWERS)[k]
      ensures i < k ==> Raised(Listed(g), POWERS)[i] < Raised(Listed(g), POWERS)[k]
    {
      RaisedAt(g, i);
    }
  }

  /** The four numbers and two counts stand for the whole list. */
  lemma GroupTurnIsTurn(g: Groups)
    requires Proper(g)
    ensures Proper(GroupTurn(g)) && |POWERS| == 12
    ensures Turn(Listed(g), POWERS, TOTAL) == Listed(GroupTurn(g))
  {
    hide Raised;
    var k := PayerOf(g);
    PayerLeads(g);
    LeaderIsUnique(Raised(Listed(g), POWERS), k);
    forall i | 0 <= i < 12
      ensures Turn(Listed(g), POWERS, TOTAL)[i] == PriorityAt(GroupTurn(g), i)
    {
      PowerOfEntry(i);
    }
  }

  // ---------------------------------------------------------------- twice 147 rounds

  /** All entries lie within an interval of length 2P. */
  predicate Narrow(g: Groups, low: int) {
    && low <= g.light <= low + 2 * TOTAL && low <= g.top <= low + 2 * TOTAL
    && low + (if g.midPaid == 0 then 0 else TOTAL) <= g.mid <= low + 2 * TOTAL
    && low + (if g.heavyPaid == 0 then 0 else TOTAL) <= g.heavy <= low + 2 * TOTAL
  }

  /** k rounds lead from g to h, and all lists before h are narrow. */
  predicate Reaches(g: Groups, k: nat, h: Groups, low: int)
    decreases k
  {
    if k == 0 then g == h else Narrow(g, low) && Reaches(GroupTurn(g), k - 1, h, low)
  }

  lemma {:induction false} ReachesOn(g: Groups, k: nat, h: Groups, l: nat, m: Groups, low: int)
    requires Reaches(g, k, h, low) && Reaches(h, l, m, low)
    ensures Reaches(g, k + l, m, low)
    decreases k
  {
    hide GroupTurn, Narrow;
    if k > 0 {
      ReachesOn(GroupTurn(g), k - 1, h, l, m, low);
    }
  }

  /** From station to station in ten rounds each. */
  lemma {:induction false} StationsReach(stations: seq<Groups>, n: nat, low: int)
    requires n < |stations| && forall i :: 0 <= i < n ==> Reaches(stations[i], 10, stations[i + 1], low)
    ensures Reaches(stations[0], 10 * n, stations[n], low)
  {
    hide GroupTurn, Narrow;
    if n > 0 {
      StationsReach(stations, n - 1, low);
      ReachesOn(stations[0], 10 * (n - 1), stations[n - 1], 10, stations[n], low);
    }
  }

  const EQUAL := Groups(0, 0, 0, 0, 0, 0)
  const HALVED := Groups(-303, -54, 0, 78, 0, 447)
  const DOUBLED := Groups(-606, -108, 0, 156, 0, 894)

  // Ten rounds at a time are computed from the definitions.

  lemma First0To10()
    ensures Reaches(Groups(0, 0, 0, 0, 0, 0), 10, Groups(30, 300, 3, 476, 2, 162), -650)
  {
  }

  lemma First10To20()
    ensures Reaches(Groups(30, 300, 3, 476, 2, 162), 10, Groups(60, -144, 0, 208, 0, 324), -650)
  {
  }

  lemma First20To30()
    ensures Reaches(Groups(60, -144, 0, 208, 0, 324), 10, Groups(90, 156, 1, -60, 0, -258), -650)
  {
  }

  lemma First30To40()
    ensures Reaches(Groups(90, 156, 1, -60, 0, -258), 10, Groups(120, 456, 6, 416, 0, -96), -650)
  {
  }

  lemma First40To50()
    ensures Reaches(Groups(120, 456, 6, 416, 0, -96), 10, Groups(-594, 12, 0, 148, 0, 66), -650)
  {
  }

  lemma First50To60()
    ensures Reaches(Groups(-594, 12, 0, 148, 0, 66), 10, Groups(-564, 312, 2, -120, 0, 228), -650)
  {
  }

  lemma First60To70()
    ensures Reaches(Groups(-564, 312, 2, -120, 0, 228), 10, Groups(-534, -132, 0, 356, 0, 390), -650)
  {
  }

  lemma First70To80()
    ensures Reaches(Groups(-534, -132, 0, 356, 0, 390), 10, Groups(-504, 168, 1, 88, 0, -192), -650)
  {
  }

  lemma First80To90()
    ensures Reaches(Groups(-504, 168, 1, 88, 0, -192), 10, Groups(-474, 468, 5, 564, 1, -30), -650)
  {
  }

  lemma First90To100()
    ensures Reaches(Groups(-474, 468, 5, 564, 1, -30), 10, Groups(-444, 24, 0, 296, 1, 132), -650)
  {
  }

  lemma First100To110()
    ensures Reaches(Groups(-444, 24, 0, 296, 1, 132), 10, Groups(-414, 324, 3, 28, 0, 294), -650)
  {
  }

  lemma First110To120()
    ensures Reaches(Groups(-414, 324, 3, 28, 0, 294), 10, Groups(-384, -120, 0, 504, 1, 456), -650)
  {
  }

  lemma First120To130()
    ensures Reaches(Groups(-384, -120, 0, 504, 1, 456), 10, Groups(-354, 180, 1, 236, 1, -126), -650)
  {
  }

  lemma First130To140()
    ensures Reaches(Groups(-354, 180, 1, 236, 1, -126), 10, Groups(-324, 480, 5, 712, 2, 36), -650)
  {
  }

  lemma First140To147()
    ensures Reaches(Groups(-324, 480, 5, 712, 2, 36), 7, Groups(-303, -54, 0, 78, 0, 447), -650)
  {
  }

  const FIRST_STATIONS: seq<Groups> := [
    Groups(0, 0, 0, 0, 0, 0), Groups(30, 300, 3, 476, 2, 162), Groups(60, -144, 0, 208, 0, 324),
    Groups(90, 156, 1, -60, 0, -258), Groups(120, 456, 6, 416, 0, -96), Groups(-594, 12, 0, 148, 0, 66),
    Groups(-564, 312, 2, -120, 0, 228), Groups(-534, -132, 0, 356, 0, 390), Groups(-504, 168, 1, 88, 0, -192),
    Groups(-474, 468, 5, 564, 1, -30), Groups(-444, 24, 0, 296, 1, 132), Groups(-414, 324, 3, 28, 0, 294),
    Groups(-384, -120, 0, 504, 1, 456), Groups(-354, 180, 1, 236, 1, -126), Groups(-324, 480, 5, 712, 2, 36)]

  /** From equal priorities. */
  lemma FirstRounds()
    ensures Reaches(EQUAL, 147, HALVED, -650)
  {
    hide Reaches;
    First0To10(); First10To20(); First20To30(); First30To40(); First40To50();
    First50To60(); First60To70(); First70To80(); First80To90(); First90To100();
    First100To110(); First110To120(); First120To130(); First130To140(); First140To147();
    StationsReach(FIRST_STATIONS, 14, -650);
    ReachesOn(EQUAL, 140, Groups(-324, 480, 5, 712, 2, 36), 7, HALVED, -650);
  }

  lemma Second0To10()
    ensures Reaches(Groups(-303, -54, 0, 78, 0, 447), 10, Groups(-273, 246, 1, -190, 0, -135), -700)
  {
  }

  lemma Second10To20()
    ensures Reaches(Groups(-273, 246, 1, -190, 0, -135), 10, Groups(-243, 546, 6, 286, 0, 27), -700)
  {
  }

  lemma Second20To30()
    ensures Reaches(Groups(-243, 546, 6, 286, 0, 27), 10, Groups(-213, 102, 0, 18, 0, -555), -700)
  {
  }

  lemma Second30To40()
    ensures Reaches(Groups(-213, 102, 0, 18, 0, -555), 10, Groups(-183, 402, 5, 494, 1, 351), -700)
  {
  }

  lemma Second40To50()
    ensures Reaches(Groups(-183, 402, 5, 494, 1, 351), 10, Groups(-153, -42, 0, 226, 0, -231), -700)
  {
  }

  lemma Second50To60()
    ensures Reaches(Groups(-153, -42, 0, 226, 0, -231), 10, Groups(-123, 258, 2, -42, 0, -69), -700)
  {
  }

  lemma Second60To70()
    ensures Reaches(Groups(-123, 258, 2, -42, 0, -69), 10, Groups(-93, -186, 0, 434, 0, 93), -700)
  {
  }

  lemma Second70To80()
    ensures Reaches(Groups(-93, -186, 0, 434, 0, 93), 10, Groups(-63, 114, 0, 166, 1, -489), -700)
  {
  }

  lemma Second80To90()
    ensures Reaches(Groups(-63, 114, 0, 166, 1, -489), 10, Groups(-33, 414, 4, -102, 0, 417), -700)
  {
  }

  lemma Second90To100()
    ensures Reaches(Groups(-33, 414, 4, -102, 0, 417), 10, Groups(-3, -30, 0, 374, 1, -165), -700)
  {
  }

  lemma Second100To110()
    ensures Reaches(Groups(-3, -30, 0, 374, 1, -165), 10, Groups(27, 270, 3, 106, 0, -3), -700)
  {
  }

  lemma Second110To120()
    ensures Reaches(Groups(27, 270, 3, 106, 0, -3), 10, Groups(57, -174, 0, 582, 1, 159), -700)
  {
  }

  lemma Second120To130()
    ensures Reaches(Groups(57, -174, 0, 582, 1, 159), 10, Groups(-657, 126, 0, 314, 1, -423), -700)
  {
  }

  lemma Second130To140()
    ensures Reaches(Groups(-657, 126, 0, 314, 1, -423), 10, Groups(-627, 426, 3, 46, 0, -261), -700)
  {
  }

  lemma Second140To147()
    ensures Reaches(Groups(-627, 426, 3, 46, 0, -261), 7, Groups(-606, -108, 0, 156, 0, 894), -700)
  {
  }

  const SECOND_STATIONS: seq<Groups> := [
    Groups(-303, -54, 0, 78, 0, 447), Groups(-273, 246, 1, -190, 0, -135), Groups(-243, 546, 6, 286, 0, 27),
    Groups(-213, 102, 0, 18, 0, -555), Groups(-183, 402, 5, 494, 1, 351), Groups(-153, -42, 0, 226, 0, -231),
    Groups(-123, 258, 2, -42, 0, -69), Groups(-93, -186, 0, 434, 0, 93), Groups(-63, 114, 0, 166, 1, -489),
    Groups(-33, 414, 4, -102, 0, 417), Groups(-3, -30, 0, 374, 1, -165), Groups(27, 270, 3, 106, 0, -3),
    Groups(57, -174, 0, 582, 1, 159), Groups(-657, 126, 0, 314, 1, -423), Groups(-627, 426, 3, 46, 0, -261)]

  /** From there as far again. */
  lemma SecondRounds()
    ensures Reaches(HALVED, 147, DOUBLED, -700)
  {
    hide Reaches;
    Second0To10(); Second10To20(); Second20To30(); Second30To40(); Second40To50();
    Second50To60(); Second60To70(); Second70To80(); Second80To90(); Second90To100();
    Second100To110(); Second110To120(); Second120To130(); Second130To140(); Second140To147();
    StationsReach(SECOND_STATIONS, 14, -700);
    ReachesOn(HALVED, 140, Groups(-627, 426, 3, 46, 0, -261), 7, DOUBLED, -700);
  }
}
