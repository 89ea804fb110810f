/** The creeps of the creep stages: their relics, their health and what they are worth. */
module Creeps {
  import opened Items
  import opened BattleStats
  import opened Draws

  datatype CreepType = Shrimp | NegativeMan | Hodd | Wakpago | ShortAnswer | Chunsik | KwonMin

  /** The creep that a room's creep counter stands for; the last one comes again and again. */
  function CurCreepType(creepRound: nat): CreepType {
    match creepRound
    case 0 => Shrimp
    case 1 => NegativeMan
    case 2 => Hodd
    case 3 => Wakpago
    case 4 => ShortAnswer
    case 5 => Chunsik
    case _ => KwonMin
  }

  function CreepMaxHp(creep: CreepType): nat {
    match creep
    case Shrimp | NegativeMan | Hodd => 20
    case Wakpago | ShortAnswer => 30
    case Chunsik => 25
    case KwonMin => 100
  }

  function Six(item: Item): seq<Item> { [item, item, item, item, item, item] }

  function CreepItems(creep: CreepType): (items: seq<Item>)
    ensures |items| == MAX_USING_ITEM_COUNT && forall i :: 0 <= i < |items| ==> Known(items[i]) && items[i].code >= 38
  {
    match creep
    case Shrimp => Six(Item(38, 0))
    case NegativeMan => Six(Item(39, 0))
    case Hodd => Six(Item(40, 0))
    case Wakpago => Six(Item(41, 0))
    case ShortAnswer => [Item(42, 0), Item(43, 0), Item(42, 0), Item(43, 0), Item(42, 0), Item(43, 0)]
    case Chunsik => Six(Item(44, 0))
    case KwonMin => Six(Item(45, 0))
  }

  datatype Reward = Reward(ticketType: TicketType, count: nat)

  /** What a creep is worth; for the last one a draw from 0 to 99 decides. */
  function CreepReward(creep: CreepType, draw: nat): Reward {
    match creep
    case Shrimp | NegativeMan | Hodd => Reward(Advanced, 1)
    case Wakpago => Reward(Advanced, 3)
    case ShortAnswer => Reward(Top, 2)
    case Chunsik => Reward(Top, 3)
    case KwonMin => if draw < 20 then Reward(Supreme, 1) else Reward(Top, 4)
  }

  /** Making the creep raises the counter, and the reward is looked up afterwards: whoever beats
      a creep is paid for the next one, which is the same reward exactly for the first two creeps
      and the last. */
  lemma PaidForTheNext(creepRound: nat)
    ensures (forall draw: nat :: draw < 100 ==>
               CreepReward(CurCreepType(creepRound + 1), draw) == CreepReward(CurCreepType(creepRound), draw))
       <==> creepRound < 2 || creepRound >= 6
  {
    assert CreepReward(CurCreepType(creepRound + 1), 50) == CreepReward(CurCreepType(creepRound), 50) ==> creepRound < 2 || creepRound >= 6;
  }
}
