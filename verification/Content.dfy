/** The content thread of the chat server: a map of characters mirrored by a 50 by 50 grid of
    lists. */
module Content {
  import opened ChatHistory
  import opened ChatJobs
  import opened ChatView
  import opened Counting

  class Character {
    var sessionID: nat
    var accountNo: int
    var sectorX: int
    var sectorY: int

    // The memory of a new node: whatever was there.
    constructor ()
    {
    }
  }

  // SendPacket to each of a list.
  ghost function ToAll(list: seq<Character>, reply: Reply): (r: seq<Sent>)
    reads list
    ensures |r| == |list|
  {
    seq(|list|, k requires 0 <= k < |list| reads list => Sent(list[k].sessionID, reply))
  }

  // ---- who is around a sector ----

  ghost predicate Sized(grid: array2<seq<Character>>) {
    grid.Length0 == SECTOR_Y_MAX && grid.Length1 == SECTOR_X_MAX
  }

  ghost function Cell(grid: array2<seq<Character>>, y: int, x: int): seq<Character>
    requires Sized(grid)
    reads grid
  {
    if InGrid(x, y) then grid[y, x] else []
  }

  // The first n sectors of a row, from x on.
  ghost function Row(grid: array2<seq<Character>>, y: int, x: int, n: nat): seq<Character>
    requires Sized(grid)
    reads grid
    decreases n
  {
    if n == 0 then [] else Row(grid, y, x, n - 1) + Cell(grid, y, x + n - 1)
  }

  // The first n rows, each of three sectors.
  ghost function Rows(grid: array2<seq<Character>>, y: int, x: int, n: nat): seq<Character>
    requires Sized(grid)
    reads grid
    decreases n
  {
    if n == 0 then [] else Rows(grid, y, x, n - 1) + Row(grid, y + n - 1, x, 3)
  }

  // Whoever stands in the sectors around (x, y), in the order SendPacketAround meets them.
  ghost function Around(grid: array2<seq<Character>>, x: int, y: int): seq<Character>
    requires Sized(grid)
    reads grid
  {
    Rows(grid, y - 1, x - 1, 3)
  }

  lemma {:induction false} RowOutside(grid: array2<seq<Character>>, y: int, x: int, n: nat)
    requires Sized(grid) && (y < 0 || y >= SECTOR_Y_MAX)
    ensures Row(grid, y, x, n) == []
  {
    if n > 0 {
      RowOutside(grid, y, x, n - 1);
    }
  }

  class ChatServer {
    var characterMap: map<nat, Character>
    const sectorList: array2<seq<Character>>
    var pool: seq<Character>              // free characters in CharacterPool, top last
    var sent: seq<Sent>                   // calls of SendPacket, in order
    var killed: seq<nat>                  // calls of KillSession, in order
    var crash: Crash
    ghost var all: set<Character>         // every character ever allocated

    ghost predicate Owned()
      reads `characterMap, `pool, `all, sectorList
    {
      && sectorList.Length0 == SECTOR_Y_MAX && sectorList.Length1 == SECTOR_X_MAX
      && (forall id :: id in characterMap ==> characterMap[id] in all)
      && (forall y: int, x: int :: InGrid(x, y) ==> forall c :: c in sectorList[y, x] ==> c in all)
      && (forall c :: c in pool ==> c in all)
    }

    // The map: the right character under each ID, in a sector or in none.
    ghost predicate MapOk()
      requires Owned()
      reads `characterMap, `pool, `all, sectorList, all`sessionID, all`sectorX, all`sectorY
    {
      forall id :: id in characterMap ==>
        var c := characterMap[id];
        c.sessionID == id && (c.sectorX == -1 || InGrid(c.sectorX, c.sectorY))
    }

    // Who is in a list belongs there.
    ghost predicate ListsOk()
      requires Owned()
      reads `characterMap, `pool, `all, sectorList, all`sessionID, all`sectorX, all`sectorY
    {
      forall y: int, x: int :: InGrid(x, y) ==>
        NoDup(sectorList[y, x]) &&
        forall c :: c in sectorList[y, x] ==>
          c.sectorX == x && c.sectorY == y && c.sessionID in characterMap && characterMap[c.sessionID] == c
    }

    // Who belongs in a list is there.
    ghost predicate FoundOk()
      requires Owned() && MapOk()
      reads `characterMap, `pool, `all, sectorList, all`sessionID, all`sectorX, all`sectorY
    {
      forall id :: id in characterMap && characterMap[id].sectorX != -1 ==>
        characterMap[id] in sectorList[characterMap[id].sectorY, characterMap[id].sectorX]
    }

    ghost predicate PoolOk()
      reads `characterMap, `pool
    {
      NoDup(pool) && forall id :: id in characterMap ==> characterMap[id] !in pool
    }

    /** The grid agrees with the map: every character is in the list of its sector exactly once
        and in no other; one in no sector is in no list, nor is a freed one. */
    ghost predicate Valid()
      reads `characterMap, `pool, `all, sectorList, all`sessionID, all`sectorX, all`sectorY
    {
      Owned() && MapOk() && ListsOk() && FoundOk() && PoolOk()
    }

    ghost function View(): View
      requires Owned()
      reads `characterMap, `pool, `all, sectorList, all
    {
      map id | id in characterMap ::
        Info(characterMap[id].accountNo, characterMap[id].sectorX, characterMap[id].sectorY)
    }

    constructor ()
      ensures Valid() && View() == map[] && sent == [] && killed == [] && crash == Running
    {
      characterMap, pool, sent, killed, crash, all := map[], [], [], [], Running, {};
      sectorList := new seq<Character>[SECTOR_Y_MAX, SECTOR_X_MAX]((i, j) => []);
    }

    // c is a character nobody uses.
    ghost predicate Unused(c: Character)
      reads `characterMap, `pool, `all
    {
      c in all && c !in pool && forall id :: id in characterMap ==> characterMap[id] != c
    }

    // CharacterPool.Alloc and Free.
    method AllocCharacter() returns (c: Character)
      requires Valid()
      modifies `pool, `all
      ensures Valid() && Unused(c)
      ensures c in old(all) || fresh(c)
      ensures fresh(all - old(all))
    {
      if pool == [] {
        c := new Character();
        all := all + {c};
      } else {
        c := pool[|pool| - 1];
        pool := pool[..|pool| - 1];
      }
    }

    method InsertCharacter(c: Character, sessionID: nat)
      requires Valid() && Unused(c) && sessionID !in characterMap
      modifies `characterMap, c
      ensures Valid()
      ensures View() == old(View())[sessionID := Info(0, -1, c.sectorY)]
    {
      c.sessionID, c.accountNo, c.sectorX := sessionID, 0, -1;
      characterMap := characterMap[sessionID := c];
    }

    method CreateCharacter(sessionID: nat) returns (character: Character?)
      requires Valid()
      modifies this, all
      ensures Valid()
      ensures character == null <==> sessionID in old(View())
      ensures exists y: int :: View() == AfterJoin(old(View()), sessionID, y)
      ensures if sessionID in old(View()) then View() == old(View())
              else exists y: int :: View() == old(View())[sessionID := Info(0, -1, y)]
      ensures fresh(all - old(all))
      ensures sent == old(sent) && killed == old(killed) && crash == old(crash)
    {
      if sessionID in characterMap {
        assert View() == AfterJoin(old(View()), sessionID, 0);
        return null;
      }
      var c := AllocCharacter();
      assert View() == old(View());
      InsertCharacter(c, sessionID);
      character := c;
      assert View() == AfterJoin(old(View()), sessionID, c.sectorY);
      assert View() == old(View())[sessionID := Info(0, -1, c.sectorY)];
    }

    // ---- taking a character out of the grid, and putting it in ----

    // Valid, but for c, which is in no list.
    ghost predicate Loose(c: Character)
      reads `characterMap, `pool, `all, sectorList, all`sessionID, all`sectorX, all`sectorY
    {
      && Owned() && MapOk() && ListsOk() && PoolOk()
      && c in all && c !in pool && c.sessionID in characterMap && characterMap[c.sessionID] == c
      && (forall y: int, x: int :: InGrid(x, y) ==> c !in sectorList[y, x])
      && forall id :: id in characterMap && characterMap[id] != c && characterMap[id].sectorX != -1 ==>
           characterMap[id] in sectorList[characterMap[id].sectorY, characterMap[id].sectorX]
    }

    // The loop over a sector's list that erases the first entry for c.
    method EraseFromSector(y: int, x: int, c: Character)
      requires sectorList.Length0 == SECTOR_Y_MAX && sectorList.Length1 == SECTOR_X_MAX && InGrid(x, y)
      requires NoDup(sectorList[y, x])
      modifies sectorList
      ensures NoDup(sectorList[y, x]) && forall d :: d in sectorList[y, x] <==> d in old(sectorList[y, x]) && d != c
      ensures forall j: int, i: int :: InGrid(i, j) && (j != y || i != x) ==> sectorList[j, i] == old(sectorList[j, i])
    {
      var list := sectorList[y, x];
      var k := 0;
      while k < |list|
        invariant 0 <= k <= |list| && sectorList[y, x] == list
        invariant forall m: nat :: m < k ==> list[m] != c
        invariant forall j: int, i: int :: InGrid(i, j) ==> sectorList[j, i] == old(sectorList[j, i])
      {
        if list[k] == c {
          sectorList[y, x] := list[..k] + list[k + 1..];
          break;
        }
        k := k + 1;
      }
      assert forall d :: d in list && d != c ==> d in sectorList[y, x];
    }

    method TakeOut(c: Character)
      requires Valid() && c.sessionID in characterMap && characterMap[c.sessionID] == c && c.sectorX != -1
      modifies sectorList
      ensures Loose(c) && View() == old(View())
    {
      EraseFromSector(c.sectorY, c.sectorX, c);
    }

    method PutIn(c: Character, x: nat, y: nat)
      requires Loose(c) && InGrid(x, y)
      modifies sectorList, c`sectorX, c`sectorY
      ensures Valid()
      ensures View() == old(View())[c.sessionID := Info(c.accountNo, x, y)]
    {
      c.sectorX, c.sectorY := x, y;
      sectorList[y, x] := sectorList[y, x] + [c];
      assert Owned() && MapOk() && PoolOk();
      assert ListsOk() by {
        hide MapOk, PoolOk, FoundOk;
      }
      assert FoundOk() by {
        hide ListsOk, PoolOk;
      }
      assert View() == old(View())[c.sessionID := Info(c.accountNo, x, y)] by {
        hide ListsOk, FoundOk, PoolOk;
      }
    }

    method Discard(c: Character)
      requires Loose(c)
      modifies `characterMap, `pool
      ensures Valid()
      ensures View() == old(View()) - {c.sessionID}
    {
      characterMap := characterMap - {c.sessionID};
      pool := pool + [c];
    }

    // ---- the jobs ----

    method LeaveCharacter(sessionID: nat)
      requires Valid()
      modifies `characterMap, `pool, `crash, sectorList
      ensures Valid()
      ensures View() == old(View()) - {sessionID}
      ensures crash == if sessionID in old(View()) then old(crash) else NotExist
    {
      if sessionID in characterMap {
        var c := characterMap[sessionID];
        if c.sectorX >= 0 && c.sectorY >= 0 {
          TakeOut(c);
        }
        Discard(c);
      } else {
        crash := NotExist;
      }
    }

    // The innermost loop. `base` is what was sent before, `met` whom it has been sent to since.
    method SendToSector(y: int, x: int, reply: Reply, ghost base: seq<Sent>, ghost met: seq<Character>)
      requires Sized(sectorList) && InGrid(x, y) && sent == base + ToAll(met, reply)
      modifies `sent
      ensures sent == base + ToAll(met + sectorList[y, x], reply)
    {
      var list := sectorList[y, x];
      assert met + list[..0] == met;
      for k := 0 to |list|
        invariant sent == base + ToAll(met + list[..k], reply)
      {
        sent := sent + [Sent(list[k].sessionID, reply)];
        assert met + list[..k + 1] == (met + list[..k]) + [list[k]];
      }
      assert list[..|list|] == list;
    }

    // The loop over cntX.
    method SendToRow(y: int, sectorX: int, reply: Reply, ghost base: seq<Sent>, ghost met: seq<Character>)
      requires Sized(sectorList) && 0 <= y < SECTOR_Y_MAX && sent == base + ToAll(met, reply)
      modifies `sent
      ensures sent == base + ToAll(met + Row(sectorList, y, sectorX, 3), reply)
    {
      assert met + Row(sectorList, y, sectorX, 0) == met;
      for cntX := 0 to 3
        invariant sent == base + ToAll(met + Row(sectorList, y, sectorX, cntX), reply)
      {
        ghost var row, cell := Row(sectorList, y, sectorX, cntX), Cell(sectorList, y, sectorX + cntX);
        assert met + Row(sectorList, y, sectorX, cntX + 1) == met + row + cell;
        if sectorX + cntX < 0 || sectorX + cntX >= SECTOR_X_MAX {
          continue;
        }
        SendToSector(y, sectorX + cntX, reply, base, met + row);
      }
    }

    /** Sends to everyone in the nine sectors around, sector by sector; sectors off the grid are
        skipped. */
    method SendPacketAround(x: int, y: int, reply: Reply)
      requires Sized(sectorList)
      modifies `sent
      ensures sent == old(sent) + ToAll(Around(sectorList, x, y), reply)
    {
      var sectorX, sectorY := x - 1, y - 1;
      for cntY := 0 to 3
        invariant sent == old(sent) + ToAll(Rows(sectorList, sectorY, sectorX, cntY), reply)
      {
        ghost var rows, row := Rows(sectorList, sectorY, sectorX, cntY), Row(sectorList, sectorY + cntY, sectorX, 3);
        assert Rows(sectorList, sectorY, sectorX, cntY + 1) == rows + row;
        if sectorY + cntY < 0 || sectorY + cntY >= SECTOR_Y_MAX {
          RowOutside(sectorList, sectorY + cntY, sectorX, 3);
          assert rows + row == rows;
          continue;
        }
        SendToRow(sectorY + cntY, sectorX, reply, old(sent), rows);
      }
    }

    // ---- whom a broadcast reaches ----

    lemma CellOnce(y: int, x: int, id: nat, reply: Reply)
      requires Valid()
      ensures Times(ToAll(Cell(sectorList, y, x), reply), Sent(id, reply)) ==
              if InGrid(x, y) && id in View() && View()[id].x == x && View()[id].y == y then 1 else 0
    {
      var cell := Cell(sectorList, y, x);
      var sends := ToAll(cell, reply);
      assert forall k: nat :: k < |cell| ==> cell[k] in cell && characterMap[sends[k].to] == cell[k];
      TimesNoDup(sends, Sent(id, reply));
      if InGrid(x, y) && id in View() && View()[id].x == x && View()[id].y == y {
        var k: nat :| k < |cell| && cell[k] == characterMap[id];
        assert sends[k] == Sent(id, reply);
      }
    }

    lemma {:induction false} RowOnce(y: int, x: int, n: nat, id: nat, reply: Reply)
      requires Valid()
      ensures Times(ToAll(Row(sectorList, y, x, n), reply), Sent(id, reply)) ==
              if id in View() && InGrid(View()[id].x, View()[id].y) && View()[id].y == y && x <= View()[id].x < x + n
              then 1 else 0
    {
      hide MapOk, ListsOk, FoundOk, PoolOk, Cell;
      if n > 0 {
        RowOnce(y, x, n - 1, id, reply);
        CellOnce(y, x + n - 1, id, reply);
        var row, cell := Row(sectorList, y, x, n - 1), Cell(sectorList, y, x + n - 1);
        TimesSplit(ToAll(row, reply), ToAll(cell, reply), Sent(id, reply));
        assert ToAll(row + cell, reply) == ToAll(row, reply) + ToAll(cell, reply);
      }
    }

    lemma {:induction false} RowsOnce(y: int, x: int, n: nat, id: nat, reply: Reply)
      requires Valid()
      ensures Times(ToAll(Rows(sectorList, y, x, n), reply), Sent(id, reply)) ==
              if id in View() && InGrid(View()[id].x, View()[id].y) && y <= View()[id].y < y + n
                 && x <= View()[id].x < x + 3
              then 1 else 0
    {
      hide MapOk, ListsOk, FoundOk, PoolOk, Row;
      if n > 0 {
        RowsOnce(y, x, n - 1, id, reply);
        RowOnce(y + n - 1, x, 3, id, reply);
        var rows, row := Rows(sectorList, y, x, n - 1), Row(sectorList, y + n - 1, x, 3);
        TimesSplit(ToAll(rows, reply), ToAll(row, reply), Sent(id, reply));
        assert ToAll(rows + row, reply) == ToAll(rows, reply) + ToAll(row, reply);
      }
    }

    /** A broadcast from (x, y) reaches each character whose sector is at most one away in either
        direction exactly once, and nobody else, wherever (x, y) is: middle, edge, corner or off
        the grid. */
    lemma BroadcastOnce(x: int, y: int, id: nat, reply: Reply)
      requires Valid()
      ensures Times(ToAll(Around(sectorList, x, y), reply), Sent(id, reply)) ==
              if id in View() && Near(View()[id], x, y) then 1 else 0
    {
      RowsOnce(y - 1, x - 1, 3, id, reply);
      assert id in View() ==> View()[id].x == -1 || InGrid(View()[id].x, View()[id].y);
    }

    /** A character who has logged in but is in no sector still has SectorX -1 and whatever
        SectorY its memory held: what it says is heard in column 0, around that row. */
    lemma OutsiderIsHeard(speaker: Character, id: nat, reply: Reply)
      requires Valid() && Mapped(speaker) && speaker.sectorX == -1
      ensures Times(ToAll(Around(sectorList, speaker.sectorX, speaker.sectorY), reply), Sent(id, reply)) ==
              if id in View() && View()[id].x == 0 && -1 <= View()[id].y - speaker.sectorY <= 1 then 1 else 0
    {
      BroadcastOnce(speaker.sectorX, speaker.sectorY, id, reply);
      assert id in View() ==> View()[id].x == -1 || InGrid(View()[id].x, View()[id].y);
    }

    /** The grid is an exact index of the map: a character is once in the list of its sector and in
        no other list, one without a sector is in none, and so is a freed one. */
    lemma IndexAgrees(c: Character, y: int, x: int)
      requires Valid() && InGrid(x, y)
      ensures Times(sectorList[y, x], c) == if Mapped(c) && c.sectorX == x && c.sectorY == y then 1 else 0
      ensures c in pool ==> Times(sectorList[y, x], c) == 0
    {
      TimesNoDup(sectorList[y, x], c);
      if Mapped(c) && c.sectorX == x && c.sectorY == y {
        assert characterMap[c.sessionID].sectorX != -1;
      }
    }

    // ---- messages ----

    ghost predicate Mapped(c: Character)
      reads `characterMap, c`sessionID
    {
      c.sessionID in characterMap && characterMap[c.sessionID] == c
    }

    // Coordinates off the grid leave the character where it is.
    method MoveSector(c: Character, x: nat, y: nat)
      requires Valid() && Mapped(c)
      modifies sectorList, c`sectorX, c`sectorY
      ensures Valid()
      ensures View() == if InGrid(x, y) then old(View())[c.sessionID := Info(c.accountNo, x, y)] else old(View())
    {
      if x < SECTOR_X_MAX && y < SECTOR_Y_MAX {
        if c.sectorX != -1 {
          TakeOut(c);
        }
        PutIn(c, x, y);
      }
    }

    // The case kCsChatReqLogin.
    method Login(c: Character, account: int)
      requires Valid() && Mapped(c)
      modifies c`accountNo, `sent, `crash
      ensures Valid()
      ensures View() == if c.sectorX != -1 then old(View())
                        else old(View())[c.sessionID := Info(account, c.sectorX, c.sectorY)]
      ensures crash == if c.sectorX != -1 then AlreadyExist else old(crash)
      ensures sent == old(sent) + if c.sectorX != -1 then [] else [Sent(c.sessionID, LoggedIn(account))]
    {
      if c.sectorX != -1 {
        crash := AlreadyExist;
        return;
      }
      c.accountNo := account;
      sent := sent + [Sent(c.sessionID, LoggedIn(account))];
    }

    // The case kCsChatReqSectorMove.
    method SectorMove(c: Character, account: int, x: nat, y: nat)
      requires Valid() && Mapped(c)
      modifies sectorList, c`sectorX, c`sectorY, `sent, `killed
      ensures Valid()
      ensures View() == if c.accountNo == account && InGrid(x, y) then old(View())[c.sessionID := Info(account, x, y)]
                        else old(View())
      ensures killed == old(killed) + if c.accountNo != account then [c.sessionID] else []
      ensures sent == old(sent) + if c.accountNo != account then []
              else [Sent(c.sessionID, Moved(account, c.sectorX, c.sectorY))]
    {
      hide ListsOk, FoundOk, PoolOk;
      if c.accountNo != account {
        killed := killed + [c.sessionID];
        return;
      }
      MoveSector(c, x, y);
      sent := sent + [Sent(c.sessionID, Moved(c.accountNo, c.sectorX, c.sectorY))];
    }

    // The case kCsChatReqMessage.
    method Say(c: Character, account: int, len: nat)
      requires Valid() && Mapped(c)
      modifies `sent, `killed, `crash
      ensures killed == old(killed) + if c.accountNo != account then [c.sessionID] else []
      ensures crash == if c.accountNo == account && len >= MESSAGE_BUFSIZE then TooLong else old(crash)
      ensures sent == old(sent) + if c.accountNo != account || len >= MESSAGE_BUFSIZE then []
                                  else old(ToAll(Around(sectorList, c.sectorX, c.sectorY), Said(account, len)))
    {
      if c.accountNo != account {
        killed := killed + [c.sessionID];
        return;
      }
      if len >= MESSAGE_BUFSIZE {
        crash := TooLong;
        return;
      }
      ghost var heard := ToAll(Around(sectorList, c.sectorX, c.sectorY), Said(account, len));
      SendPacketAround(c.sectorX, c.sectorY, Said(account, len));
      assert sent == old(sent) + heard;
    }

    // The two messages that change a character.
    method Change(c: Character, body: Body)
      requires Valid() && Mapped(c) && (body.Login? || body.SectorMove?)
      modifies sectorList, c`accountNo, c`sectorX, c`sectorY, `sent, `killed, `crash
      ensures Valid()
      ensures View() == AfterMessage(old(View()), c.sessionID, body)
      ensures crash == if CrashOf(old(View()), c.sessionID, body) == Running then old(crash)
              else CrashOf(old(View()), c.sessionID, body)
      ensures killed == old(killed) + if Kills(old(View()), c.sessionID, body) then [c.sessionID] else []
      ensures sent == old(sent) + Answers(old(View()), c.sessionID, body, [])
    {
      assert View()[c.sessionID] == Info(c.accountNo, c.sectorX, c.sectorY);
      match body
      case Login(account) => Login(c, account);
      case SectorMove(account, x, y) => SectorMove(c, account, x, y);
    }

    lemma {:induction false} RowOwned(y: int, x: int, n: nat)
      requires Owned()
      ensures forall c :: c in Row(sectorList, y, x, n) ==> c in all
    {
      if n > 0 {
        RowOwned(y, x, n - 1);
      }
    }

    lemma {:induction false} RowsOwned(y: int, x: int, n: nat)
      requires Owned()
      ensures forall c :: c in Rows(sectorList, y, x, n) ==> c in all
    {
      if n > 0 {
        RowsOwned(y, x, n - 1);
        RowOwned(y + n - 1, x, 3);
      }
    }

    // What SendPacketAround sends if `id` now says `body`.
    ghost function Broadcast(id: nat, body: Body): seq<Sent>
      requires Valid()
      reads `characterMap, `pool, `all, sectorList, all
    {
      if id in characterMap && body.Say?
      then RowsOwned(characterMap[id].sectorY - 1, characterMap[id].sectorX - 1, 3);
           ToAll(Around(sectorList, characterMap[id].sectorX, characterMap[id].sectorY), Said(body.account, body.len))
      else []
    }

    // The other messages.
    method Answer(c: Character, body: Body)
      requires Valid() && Mapped(c) && !body.Login? && !body.SectorMove?
      modifies `sent, `killed, `crash
      ensures crash == if CrashOf(View(), c.sessionID, body) == Running then old(crash)
              else CrashOf(View(), c.sessionID, body)
      ensures killed == old(killed) + if Kills(View(), c.sessionID, body) then [c.sessionID] else []
      ensures sent == old(sent) + Answers(View(), c.sessionID, body, old(Broadcast(c.sessionID, body)))
    {
      assert View()[c.sessionID] == Info(c.accountNo, c.sectorX, c.sectorY);
      match body
      case Say(account, len) => Say(c, account, len);
      case Undefined => killed := killed + [c.sessionID];
      case _ =>
    }

    /** One message: what it changes, whom it answers, whose session it kills, when it crashes. */
    method MessageControl(id: nat, body: Body)
      requires Valid()
      modifies `sent, `killed, `crash, sectorList, all`accountNo, all`sectorX, all`sectorY
      ensures Valid()
      ensures View() == AfterMessage(old(View()), id, body)
      ensures crash == if CrashOf(old(View()), id, body) == Running then old(crash) else CrashOf(old(View()), id, body)
      ensures killed == old(killed) + if Kills(old(View()), id, body) then [id] else []
      ensures sent == old(sent) + Answers(old(View()), id, body, old(Broadcast(id, body)))
      // A message of unknown type kills the session; one to the server, or a heartbeat, does nothing.
      ensures id in old(View()) && body.Undefined? ==>
              View() == old(View()) && crash == old(crash) && killed == old(killed) + [id] && sent == old(sent)
      ensures id in old(View()) && (body.Heartbeat? || body.ToServer?) ==>
              View() == old(View()) && crash == old(crash) && killed == old(killed) && sent == old(sent)
      ensures id !in old(View()) ==>
              View() == old(View()) && crash == NotExist && killed == old(killed) && sent == old(sent)
    {
      assert id in View() <==> id in characterMap;
      assert id in characterMap ==> Mapped(characterMap[id]) && characterMap[id].sessionID == id;
      hide MapOk, ListsOk, FoundOk, PoolOk, View, Around;
      if id !in characterMap {
        crash := NotExist;
        return;
      }
      if body.Login? || body.SectorMove? {
        Change(characterMap[id], body);
      } else {
        Answer(characterMap[id], body);
      }
    }

    lemma BroadcastReaches(id: nat, body: Body)
      requires Valid()
      ensures Reaches(View(), id, body, Broadcast(id, body))
    {
      if id in characterMap && body.Say? {
        hide MapOk, ListsOk, FoundOk, PoolOk, Around;
        var list := Around(sectorList, characterMap[id].sectorX, characterMap[id].sectorY);
        var said := Said(body.account, body.len);
        forall to: nat, reply: Reply
          ensures Times(ToAll(list, said), Sent(to, reply)) ==
                  if reply == said && to in View() && Near(View()[to], View()[id].x, View()[id].y) then 1 else 0
        {
          if reply == said {
            BroadcastOnce(characterMap[id].sectorX, characterMap[id].sectorY, to, said);
          } else {
            TimesIn(ToAll(list, said), Sent(to, reply));
          }
        }
      }
    }

    /** One job. */
    method Handle(job: Job) returns (ghost h: Handled)
      requires Valid() && crash == Running
      modifies this, sectorList, all
      ensures Valid() && fresh(all - old(all))
      ensures Did(h) && h.job == job && h.before == old(View()) && h.after == View() && h.crash == crash
      ensures sent == old(sent) + h.sent && killed == old(killed) + h.killed
    {
      ghost var before, around := View(), [];
      match job {
        case JoinJob(id) =>
          var _ := CreateCharacter(id);
          h := Handled.Handled(job, before, View(), [], [], Running);
        case MessageJob(id, body) =>
          BroadcastReaches(id, body);
          around := Broadcast(id, body);
          MessageControl(id, body);
          h := Handled.Handled(job, before, View(), Answers(before, id, body, around),
                               if Kills(before, id, body) then [id] else [], crash);
        case LeaveJob(id) =>
          LeaveCharacter(id);
          h := Handled.Handled(job, before, View(), [], [], crash);
      }
    }

    // The server has handled hs, from a state in which nobody was there.
    ghost predicate Stands(hs: seq<Handled>, jobs: seq<Job>, sent0: seq<Sent>, killed0: seq<nat>)
      requires Valid()
      reads this, sectorList, all
    {
      && Ran(hs, jobs) && AfterJobs(hs, |hs|) == View()
      && sent == sent0 + AllSent(hs) && killed == killed0 + AllKilled(hs)
      && crash == if hs == [] then Running else hs[|hs| - 1].crash
    }

    method HandleNext(jobs: seq<Job>, k: nat, ghost hs: seq<Handled>, ghost sent0: seq<Sent>, ghost killed0: seq<nat>)
      returns (ghost h: Handled)
      requires Valid() && crash == Running && |hs| == k < |jobs| && Stands(hs, jobs, sent0, killed0)
      modifies this, sectorList, all
      ensures Valid() && fresh(all - old(all))
      ensures Stands(hs + [h], jobs, sent0, killed0)
    {
      hide Did, Owned, MapOk, ListsOk, FoundOk, PoolOk, View;
      h := Handle(jobs[k]);
      RanOne(hs, jobs, h);
    }

    /** The content thread, over the jobs it dequeues, up to the first crash. Whatever comes, it
        has a character for exactly the sessions that joined and have not left, and has sent and
        killed what the jobs so far ask for; and if the jobs of each session are in order, every
        character a job asks for exists. */
    method UpdateThread(jobs: seq<Job>) returns (handled: nat, ghost hs: seq<Handled>)
      requires Valid() && View() == map[] && crash == Running
      modifies this, sectorList, all
      ensures Valid()
      ensures handled <= |jobs| && (crash == Running ==> handled == |jobs|)
      ensures View().Keys == Present(jobs[..handled])
      ensures Ran(hs, jobs) && |hs| == handled && AfterJobs(hs, |hs|) == View()
      ensures sent == old(sent) + AllSent(hs) && killed == old(killed) + AllKilled(hs)
      ensures crash == if hs == [] then Running else hs[|hs| - 1].crash
      ensures Expected(jobs) ==> crash != NotExist
    {
      hs, handled := [], 0;
      while handled < |jobs| && crash == Running
        invariant Valid() && fresh(all - old(all))
        invariant |hs| == handled <= |jobs| && Stands(hs, jobs, old(sent), old(killed))
        decreases |jobs| - handled
      {
        ghost var h := HandleNext(jobs, handled, hs, old(sent), old(killed));
        hs, handled := hs + [h], handled + 1;
      }
      WhoIsThere(hs, jobs, handled);
      if Expected(jobs) && hs != [] {
        ExpectedNeverMissing(hs, jobs, handled - 1);
      }
    }
  }
}
