/** Who holds a slot, one by one: the pool's counts are the numbers of its holders. */
module PoolHolders {
  import opened Wrappers
  import opened PoolRules
  import opened PoolAccounting

  /** The slots that are alive, and the grants not collected yet. */
  ghost function Holders(w: World): set<Ticket> {
    w.live.Keys + set t | t in w.inner.waiters && w.inner.waiters[t].granted
  }

  ghost function LineOf(w: World, t: Ticket): Line
    requires t in w.live || t in w.inner.waiters
  {
    if t in w.live then w.live[t] else w.inner.waiters[t].line
  }

  lemma HoldingIsHolders(w: World)
    requires w.live.Keys !! w.inner.waiters.Keys
    ensures Holding(w).Keys == Holders(w) && forall t <- Holders(w) :: Holding(w)[t] == LineOf(w, t)
  {
  }

  lemma AllAreOfAClass(m: map<Ticket, Line>)
    ensures |m| == |OfClass(m, Open)| + |OfClass(m, Metadata)| + |OfClass(m, Download)| + |OfClass(m, Upload)|
  {
    var a, b, c, d := OfClass(m, Open), OfClass(m, Metadata), OfClass(m, Download), OfClass(m, Upload);
    SizeOfBoth(a, b);
    SizeOfBoth(a + b, c);
    SizeOfBoth(a + b + c, d);
    assert a + b + c + d == m.Keys by {
      forall t | t in m
        ensures t in a + b + c + d
      {
        assert m[t].class_ in {Open, Metadata, Download, Upload};
      }
    }
  }

  /** What is held in all, of a class, and of the large ones, is so many holders. */
  lemma CountsAreHolders(w: World)
    requires LinesOk(w.inner) && Accounted(w)
    ensures w.inner.Total() == |Holders(w)|
    ensures w.inner.Held(Open) > 0 <==> exists t <- Holders(w) :: LineOf(w, t).class_ == Open
    ensures w.inner.Held(Open) >= 0
    ensures w.inner.largeHeld == |set t | t in Holders(w) && LineOf(w, t).large|
  {
    hide LinesOk, Holding;
    HoldingIsHolders(w);
    var m := Holding(w);
    AllAreOfAClass(m);
    assert |m| == |m.Keys|;
    assert Larges(m) == set t | t in Holders(w) && LineOf(w, t).large;
    if t :| t in Holders(w) && LineOf(w, t).class_ == Open {
      assert t in OfClass(m, Open);
    }
    if w.inner.Held(Open) > 0 {
      assert OfClass(m, Open) != {};
      var t :| t in OfClass(m, Open);
      assert t in Holders(w);
    }
  }

  /** Work is queued exactly when somebody waits. */
  lemma QueuedIff(s: Inner)
    requires LinesOk(s)
    ensures s.Queued() <==> exists t <- s.waiters :: !s.waiters[t].granted
  {
    if t :| t in s.waiters && !s.waiters[t].granted {
      var l := s.waiters[t].line;
      assert StandsRight(s, l, t);
      assert l == Line(l.class_, true) || l == Line(l.class_, false);
      match l.class_
      case Open =>
      case Metadata =>
      case Download =>
      case Upload =>
    }
    if s.Queued() {
      var l, t := SomeLine(s);
      assert StandsRight(s, l, t);
    }
  }

  lemma SomeLine(s: Inner) returns (l: Line, t: Ticket)
    requires s.Queued()
    ensures t in s.InLine(l)
  {
    l := if s.InLine(Line(Open, false)) != {} then Line(Open, false)
         else if s.InLine(Line(Open, true)) != {} then Line(Open, true)
         else if s.InLine(Line(Metadata, false)) != {} then Line(Metadata, false)
         else if s.InLine(Line(Metadata, true)) != {} then Line(Metadata, true)
         else if s.InLine(Line(Download, false)) != {} then Line(Download, false)
         else if s.InLine(Line(Download, true)) != {} then Line(Download, true)
         else if s.InLine(Line(Upload, false)) != {} then Line(Upload, false)
         else Line(Upload, true);
    t :| t in s.InLine(l);
  }
}
