/** The table interactiveAccess of src/bexpproc/msgehandler.c, updated in place. */
module AccessTable {
  import opened ConsoleAccess

  class Accesses {
    const slots: array<Slot>
    var interactivePid: int

    ghost predicate Shape() {
      slots.Length == LEVELS
    }

    ghost function View(): (t: Table)
      requires Shape()
      reads this, slots
      ensures |t.slots| == LEVELS
    {
      Table(slots[..], interactivePid)
    }

    constructor ()
      ensures Shape() && View() == START && fresh(slots)
    {
      slots := new Slot[LEVELS](_ => EMPTY);
      interactivePid := -1;
    }

    method LocateByLevel(l: Level) returns (index: int)
      requires Shape()
      ensures index == AtLevel(View(), l)
    {
      index := -1;
      for iter := 0 to LEVELS
        invariant index == -1 && forall j :: 0 <= j < iter ==> slots[j].level != l
      {
        if l == slots[iter].level {
          return iter;
        }
      }
    }

    method LocateByRecord(a: Auth) returns (index: int)
      requires Shape()
      ensures index == AtRecord(View(), a)
    {
      index := -1;
      for iter := 0 to LEVELS
        invariant index == -1 && forall j :: 0 <= j < iter ==> CompareAuth(a, slots[j].auth) != Same
      {
        if CompareAuth(a, slots[iter].auth) == Same {
          return iter;
        }
      }
    }

    method ClearByIndex(index: int)
      requires Shape() && 0 <= index < LEVELS
      modifies slots
      ensures View() == ClearIndex(old(View()), index)
    {
      slots[index] := slots[index].(auth := ZERO);
      slots[index] := slots[index].(count := slots[index].count - 1);
      if slots[index].count < 1 {
        slots[index] := slots[index].(level := NoLevel);
      }
    }

    method ClearByLevel(l: Level)
      requires Shape()
      modifies slots
      ensures View() == ClearLevel(old(View()), l)
    {
      var index := LocateByLevel(l);
      if index >= 0 {
        ClearByIndex(index);
      }
    }

    method ClearByRecord(a: Auth)
      requires Shape() && a.pid != 0
      modifies slots
      ensures View() == ClearRecord(old(View()), a)
    {
      var index := LocateByRecord(a);
      while index >= 0
        invariant index == AtRecord(View(), a) && ClearRecord(View(), a) == ClearRecord(old(View()), a)
        decreases Records(View(), a)
      {
        ClearByIndex(index);
        index := LocateByRecord(a);
      }
    }

    method StoreRecord(a: Auth, l: Level) returns (stat: int)
      requires Shape()
      modifies slots
      ensures View() == Store(old(View()), a, l)
      ensures stat == 0 <==> Has(View(), l, a)
      ensures stat == 0 || stat == -1
    {
      var iter := LocateByLevel(l);
      if iter >= 0 {
        if CompareAuth(a, slots[iter].auth) == Same {
          slots[iter] := slots[iter].(count := slots[iter].count + 1);
          return 0;
        }
        return -1;
      }
      var index := LocateByLevel(NoLevel);
      if index < 0 {
        return -1;
      }
      slots[index] := Slot(a, l, 1);
      stat := 0;
    }

    method VerifyAccess(w: World, a: Auth, l: Level) returns (granted: bool)
      requires Shape()
      modifies this`interactivePid, slots
      ensures (granted, View()) == Verify(old(View()), w, a, l)
    {
      if !UserOk(a.user, w) {
        return false;
      }
      var index := LocateByLevel(l);
      if index < 0 {
        return true;
      }
      if IsActive(slots[index].auth, w) {
        granted := CompareAuth(slots[index].auth, a) != Different;
      } else {
        if slots[index].auth.pid == interactivePid {
          interactivePid := -1;
        }
        slots[index] := EMPTY;
        granted := true;
      }
    }

    /** verifyInteractAccess with no record to compare with. */
    method VerifyNobodyAccess(w: World, l: Level) returns (granted: bool)
      requires Shape()
      modifies this`interactivePid, slots
      ensures (granted, View()) == VerifyNobody(old(View()), w, l)
    {
      var index := LocateByLevel(l);
      if index < 0 {
        return true;
      }
      if IsActive(slots[index].auth, w) {
        granted := false;
      } else {
        if slots[index].auth.pid == interactivePid {
          interactivePid := -1;
        }
        slots[index] := EMPTY;
        granted := true;
      }
    }

    method IsThereInteractiveAccess(w: World) returns (there: bool)
      requires Shape()
      modifies this`interactivePid, slots
      ensures (there, View()) == AnyAccess(old(View()), w)
    {
      hide VerifyNobody;
      for iter := 0 to LEVELS
        invariant (if iter == 0 then View() == old(View())
                   else if iter == 1 then (true, View()) == VerifyNobody(old(View()), w, Shim)
                   else (false, View()) == AnyAccess(old(View()), w))
      {
        var granted := VerifyNobodyAccess(w, if iter == 0 then Shim else Acquire);
        if !granted {
          return true;
        }
      }
      there := false;
    }

    method ReserveConsole(w: World, a: Auth, l: Level) returns (granted: bool)
      requires Shape() && a.pid != 0
      modifies this`interactivePid, slots
      ensures (granted, View()) == Reserve(old(View()), w, a, l)
    {
      hide Verify, Store, ClearRecord;
      if l == NoLevel {
        var index := LocateByRecord(a);
        granted := index > 0;
        if granted {
          ClearByRecord(a);
        }
      } else {
        granted := VerifyAccess(w, a, l);
        if granted && (l != Acquire || interactivePid < 0) {
          var stat := StoreRecord(a, l);
        }
      }
    }

    method ReleaseConsole(a: Auth, l: Level) returns (accepted: bool)
      requires Shape() && a.pid != 0
      modifies slots
      ensures (accepted, View()) == Release(old(View()), a, l)
    {
      hide ClearRecord;
      accepted := true;
      if l == NoLevel {
        ClearByRecord(a);
      } else {
        var index := LocateByLevel(l);
        if index >= 0 {
          accepted := CompareAuth(slots[index].auth, a) == Same;
          if accepted {
            ClearByIndex(index);
          }
        }
      }
    }

    method StartInteractive(w: World, a: Auth, able: bool) returns (granted: bool)
      requires Shape()
      modifies this`interactivePid, slots
      ensures (granted, View()) == StartInteract(old(View()), w, a, able)
    {
      hide Verify, Store;
      var index := LocateByLevel(Acquire);
      var notRegistered := index < 0;
      granted := VerifyAccess(w, a, Acquire);
      if granted {
        granted := !w.active && able;
      }
      if granted {
        if notRegistered {
          var stat := StoreRecord(a, Acquire);
        }
        interactivePid := a.pid;
      }
    }

    method ExpAcqDone()
      requires Shape()
      modifies this`interactivePid, slots
      ensures View() == Finish(old(View()))
    {
      ClearByLevel(Acquire);
      interactivePid := -1;
    }
  }
}
