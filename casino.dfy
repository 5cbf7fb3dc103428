/**
 * Table occupancy in the casino environment: a counter of seated players
 * bounded by the table's capacity, and a crowding flag refreshed whenever
 * the count changes.
 */
module Casino {

  /** A table is crowded when at least 80% of its seats are taken. */
  predicate Crowded(current: int, max: int) {
    current as real >= (max as real) * 0.8
  }

  /** The same threshold in whole numbers: five times the players reach four times the seats. */
  lemma CrowdedInIntegers(current: int, max: int)
    ensures Crowded(current, max) <==> 5 * current >= 4 * max
  {
  }

  /** At a standard seven-seat table the sixth player makes it crowded. */
  lemma SevenSeatTable(current: int)
    ensures Crowded(current, 7) <==> current >= 6
  {
    CrowdedInIntegers(current, 7);
  }

  class TableConditions {
    var maxPlayers: int
    var currentPlayers: int
    var isCrowded: bool

    predicate Valid()
      reads this
    {
      0 <= currentPlayers <= maxPlayers && isCrowded == Crowded(currentPlayers, maxPlayers)
    }

    /**
     * A table with a given capacity.  When no count is given the source
     * seats a random number from 1 to one less than capacity; that draw is
     * the parameter `seatedDraw`, which must lie in that range.
     */
    constructor(maxPlayers: int, currentPlayers: int, seatedDraw: int)
      requires currentPlayers == 0 ==> 1 <= seatedDraw <= maxPlayers - 1
      ensures this.maxPlayers == maxPlayers
      ensures currentPlayers == 0 ==> 1 <= this.currentPlayers < maxPlayers && Valid()
      ensures this.currentPlayers == (if currentPlayers == 0 then seatedDraw else currentPlayers)
      ensures isCrowded == Crowded(this.currentPlayers, maxPlayers)
      ensures 0 <= this.currentPlayers <= maxPlayers ==> Valid()
    {
      this.maxPlayers := maxPlayers;
      this.currentPlayers := if currentPlayers == 0 then seatedDraw else currentPlayers;
      isCrowded := Crowded(if currentPlayers == 0 then seatedDraw else currentPlayers, maxPlayers);
    }

    /** A player sits down if a seat is free; the crowding flag follows the new count. */
    method PlayerArrives() returns (success: bool)
      modifies this
      ensures success <==> old(currentPlayers) < old(maxPlayers)
      ensures maxPlayers == old(maxPlayers)
      ensures currentPlayers == old(currentPlayers) + (if success then 1 else 0)
      ensures isCrowded == (if success then Crowded(currentPlayers, maxPlayers) else old(isCrowded))
      ensures old(Valid()) ==> Valid()
    {
      if currentPlayers < maxPlayers {
        currentPlayers := currentPlayers + 1;
        isCrowded := Crowded(currentPlayers, maxPlayers);
        return true;
      }
      return false;
    }

    /** A player leaves if anyone is seated; the crowding flag follows the new count. */
    method PlayerLeaves() returns (success: bool)
      modifies this
      ensures success <==> old(currentPlayers) > 0
      ensures maxPlayers == old(maxPlayers)
      ensures currentPlayers == old(currentPlayers) - (if success then 1 else 0)
      ensures isCrowded == (if success then Crowded(currentPlayers, maxPlayers) else old(isCrowded))
      ensures old(Valid()) ==> Valid()
    {
      if currentPlayers > 0 {
        currentPlayers := currentPlayers - 1;
        isCrowded := Crowded(currentPlayers, maxPlayers);
        return true;
      }
      return false;
    }
  }
}
