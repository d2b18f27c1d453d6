// A run of the listen watcher in which a listen goes on being handed out after
// it has been excluded.
module ExcludeRun {
  import opened DeadlineRun
  import opened Listens
  import opened Stream
  import opened WatchModel

  // After the first scan, which found WEB: WEB is excluded, somebody
  // subscribes, and the next scan publishes its removal.
  const X4: Watch<nat> := W3.(excluded := map[WEB := 1])
  const X5: Watch<nat> := X4.(subs := map[0 := Sub({WEB}, 1, [], [], false)])
  const X6: Watch<nat> := X5.(scan := Publishing([Remove(WEB)], {}))
  const X7: Watch<nat> := X6.(log := [Add(WEB), Remove(WEB)], subs := map[0 := Sub({WEB}, 1, [], [Remove(WEB)], false)],
                              scan := Publishing([], {}))

  lemma SecondScan()
    ensures Next(W3, Exclude(WEB), X4)
    ensures Next(X4, Subscribe(0), X5)
    ensures Next(X5, BeginScan({WEB}, [Remove(WEB)]), X6)
    ensures Next(X6, PublishNext, X7)
  {
    var removes := [Remove(WEB)];
    assert Reported({WEB}, map[WEB := 1]) == {};
    assert removes[..0] == [] && removes[0..] == removes && removes[..1] == removes && removes[1..] == [];
    assert IsDiff({WEB}, {}, removes) by {
      assert Exact({WEB}, removes) && Replay({WEB}, removes) == {};
      assert AllAdds(removes[..0], {} - {WEB}) && AllRemoves(removes[0..], {WEB} - {});
    }
    assert [] + removes == removes && [Add(WEB)] + removes == X7.log;
    assert Publish(X6, Remove(WEB)).subs == X7.subs;
  }

  lemma ExcludedYetSent() returns (ws: seq<Watch<nat>>, acts: seq<Action<nat>>)
    ensures IsRun(ws, acts) && |ws| == 8 && acts[3] == Exclude(WEB) && ExcludedThroughout(ws, 4, 7, WEB)
    ensures 0 !in ws[4].subs && 0 in ws[7].subs
    ensures WEB in ws[7].subs[0].snapshot && Remove(WEB) in ws[7].subs[0].queue && !SilentSince(ws[4], ws[7], WEB)
  {
    FirstScan();
    SecondScan();
    ws := [W0, W1, W2, W3, X4, X5, X6, X7];
    acts := [BeginScan({WEB}, [Add(WEB)]), PublishNext, EndScan, Exclude(WEB), Subscribe(0),
        BeginScan({WEB}, [Remove(WEB)]), PublishNext];
    assert Next(ws[0], acts[0], ws[1]) && Next(ws[1], acts[1], ws[2]) && Next(ws[2], acts[2], ws[3]);
    assert ws[7].log[1] == Remove(WEB);
  }
}
