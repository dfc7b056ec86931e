/** MMM-SimpleStats: shows volume, temperature, Wi-Fi, IP address and a
    small CPU/RAM/disk table from the statistics the node helper sends. The
    markup is modelled by the list of parts it is made of; the volume figure
    blinks when the volume changed since the previous redraw. */
module SimpleStats {

  datatype Stats = Stats(cpu: int, ram: int, disk: int, temp: int, volume: int, ip: string, wifi: string)

  datatype Config = Config(showVolume: bool, showTemp: bool, showWifi: bool, showIp: bool,
                           showCpu: bool, showRam: bool, showDisk: bool)

  datatype Cell = CpuCell(cpu: int) | RamCell(ram: int) | DiskCell(disk: int)

  /** One line of the display, in the order `updateDisplay` writes them. */
  datatype Part =
    | VolumeLine(animate: bool, volume: int)
    | TempLine(color: string, temp: int)
    | WifiLine(wifi: string)
    | IpLine(ip: string)
    | Table(cells: seq<Cell>)

  const Red := "#ff0000"
  const White := "#ffffff"
  const HotThreshold := 170

  /** `getTempColor` */
  function TempColor(temp: int): (color: string)
    ensures color == Red <==> temp >= HotThreshold
    ensures color == White <==> temp < HotThreshold
  {
    if temp >= HotThreshold then Red else White
  }

  /** The cells of the table: CPU, RAM and disk, each when enabled. */
  function Cells(cfg: Config, s: Stats): (r: seq<Cell>)
    ensures |r| == (if cfg.showCpu then 1 else 0) + (if cfg.showRam then 1 else 0) + (if cfg.showDisk then 1 else 0)
    ensures r == [] <==> !(cfg.showCpu || cfg.showRam || cfg.showDisk)
  {
    (if cfg.showCpu then [CpuCell(s.cpu)] else []) +
    (if cfg.showRam then [RamCell(s.ram)] else []) +
    (if cfg.showDisk then [DiskCell(s.disk)] else [])
  }

  /** The whole display for the statistics and the volume decision. */
  function Parts(cfg: Config, s: Stats, animate: bool): seq<Part> {
    (if cfg.showVolume then [VolumeLine(animate, s.volume)] else []) +
    (if cfg.showTemp then [TempLine(TempColor(s.temp), s.temp)] else []) +
    (if cfg.showWifi then [WifiLine(s.wifi)] else []) +
    (if cfg.showIp then [IpLine(s.ip)] else []) +
    (if cfg.showCpu || cfg.showRam || cfg.showDisk then [Table(Cells(cfg, s))] else [])
  }

  /** The table is shown exactly when one of its columns is enabled, and then
      it is the last part and holds at least one cell. */
  lemma TableShownIff(cfg: Config, s: Stats, animate: bool)
    ensures (exists i :: 0 <= i < |Parts(cfg, s, animate)| && Parts(cfg, s, animate)[i].Table?) <==>
            cfg.showCpu || cfg.showRam || cfg.showDisk
    ensures cfg.showCpu || cfg.showRam || cfg.showDisk ==>
              Parts(cfg, s, animate)[|Parts(cfg, s, animate)| - 1] == Table(Cells(cfg, s)) &&
              Cells(cfg, s) != []
  {
    var p := Parts(cfg, s, animate);
    if cfg.showCpu || cfg.showRam || cfg.showDisk {
      assert p[|p| - 1].Table?;
    }
  }

  class SimpleStats {
    const cfg: Config
    var stats: Stats
    var previousVolume: int
    var isFirstUpdate: bool
    var hasWrapper: bool
    /** The current content of the wrapper. */
    var display: seq<Part>

    /** `start` */
    constructor (cfg: Config)
      ensures this.cfg == cfg
      ensures stats == Stats(0, 0, 0, 0, 0, "0.0.0.0", "Disconnected")
      ensures previousVolume == -1 && isFirstUpdate && !hasWrapper && display == []
    {
      this.cfg := cfg;
      stats := Stats(0, 0, 0, 0, 0, "0.0.0.0", "Disconnected");
      previousVolume := -1;
      isFirstUpdate := true;
      hasWrapper := false;
      display := [];
    }

    /** `shouldAnimateVolume`: never on the first call; afterwards exactly
        when the volume moved. Either way the volume is recorded. */
    method ShouldAnimateVolume() returns (animate: bool)
      modifies this`previousVolume, this`isFirstUpdate
      ensures animate <==> !old(isFirstUpdate) && stats.volume != old(previousVolume)
      ensures !isFirstUpdate && previousVolume == stats.volume
    {
      if isFirstUpdate {
        previousVolume := stats.volume;
        isFirstUpdate := false;
        return false;
      }
      if stats.volume != previousVolume {
        previousVolume := stats.volume;
        return true;
      }
      return false;
    }

    /** `updateDisplay`: nothing before `getDom` made the wrapper. */
    method UpdateDisplay()
      modifies this`previousVolume, this`isFirstUpdate, this`display
      ensures !hasWrapper ==>
                display == old(display) && previousVolume == old(previousVolume) &&
                isFirstUpdate == old(isFirstUpdate)
      ensures hasWrapper && !cfg.showVolume ==>
                display == Parts(cfg, stats, false) && previousVolume == old(previousVolume) &&
                isFirstUpdate == old(isFirstUpdate)
      ensures hasWrapper && cfg.showVolume ==>
                display == Parts(cfg, stats, !old(isFirstUpdate) && stats.volume != old(previousVolume)) &&
                !isFirstUpdate && previousVolume == stats.volume
    {
      if !hasWrapper {
        return;
      }
      var animate := false;
      if cfg.showVolume {
        animate := ShouldAnimateVolume();
      }
      display := BuildParts(animate);
    }

    /** The lines `updateDisplay` appends, in order, and the table when one
        of its columns is enabled. */
    method BuildParts(animate: bool) returns (html: seq<Part>)
      ensures html == Parts(cfg, stats, animate)
    {
      html := [];
      if cfg.showVolume {
        html := html + [VolumeLine(animate, stats.volume)];
      }
      assert html == (if cfg.showVolume then [VolumeLine(animate, stats.volume)] else []);
      html := html + (if cfg.showTemp then [TempLine(TempColor(stats.temp), stats.temp)] else []);
      html := html + (if cfg.showWifi then [WifiLine(stats.wifi)] else []);
      html := html + (if cfg.showIp then [IpLine(stats.ip)] else []);
      if cfg.showCpu || cfg.showRam || cfg.showDisk {
        var cells := BuildCells();
        html := html + [Table(cells)];
      }
    }

    /** The cells of the resource table: CPU, RAM and disk, each when enabled. */
    method BuildCells() returns (cells: seq<Cell>)
      ensures cells == Cells(cfg, stats)
    {
      cells := [];
      cells := cells + (if cfg.showCpu then [CpuCell(stats.cpu)] else []);
      cells := cells + (if cfg.showRam then [RamCell(stats.ram)] else []);
      cells := cells + (if cfg.showDisk then [DiskCell(stats.disk)] else []);
    }

    /** `getDom`: make the wrapper and fill it. */
    method GetDom()
      modifies this`hasWrapper, this`previousVolume, this`isFirstUpdate, this`display
      ensures hasWrapper
      ensures display == Parts(cfg, stats, cfg.showVolume && !old(isFirstUpdate) && stats.volume != old(previousVolume))
      ensures cfg.showVolume ==> !isFirstUpdate && previousVolume == stats.volume
      ensures !cfg.showVolume ==> isFirstUpdate == old(isFirstUpdate) && previousVolume == old(previousVolume)
    {
      hasWrapper := true;
      UpdateDisplay();
    }

    /** `STATS`: the statistics are replaced as a whole, then redrawn. */
    method SocketNotificationReceived(payload: Stats)
      modifies this`stats, this`previousVolume, this`isFirstUpdate, this`display
      ensures stats == payload
      ensures hasWrapper ==>
                display == Parts(cfg, payload, cfg.showVolume && !old(isFirstUpdate) && payload.volume != old(previousVolume))
      ensures !hasWrapper ==> display == old(display)
      ensures hasWrapper && cfg.showVolume ==> !isFirstUpdate && previousVolume == payload.volume
      ensures !hasWrapper || !cfg.showVolume ==>
                isFirstUpdate == old(isFirstUpdate) && previousVolume == old(previousVolume)
    {
      stats := payload;
      UpdateDisplay();
    }
  }
}
