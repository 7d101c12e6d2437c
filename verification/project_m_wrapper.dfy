/** `ProjectMWrapper`, the subsystem that owns the rating database: the map
    `dbpm`, the record mirrored for the current preset, the rating file, the
    MPD volume counter and the cursor direction of the preset browser. The
    projectM engine and the MPD daemon are outside the model: the engine's
    rating of the current preset and its playlist are parameters, and the
    file system is a map from path to content. */
module Wrapper {
  import opened CText
  import opened WrapperTypes
  import PresetStore
  import opened PresetFile
  import opened SeqFacts

  /** Path to file content; a path that is absent cannot be opened. */
  type FileSystem = map<string, string>

  /** The MPD volume after `MPDVolumeUp`: one step up unless already at 100. */
  function VolumeUp(v: Int32): (r: Int32)
    ensures v < 100 ==> r == v + 1
    ensures v >= 100 ==> r == v
    ensures 0 <= v <= 100 ==> 0 <= r <= 100
  {
    if v < 100 then v + 1 else v
  }

  /** The MPD volume after `MPDVolumeDown`: one step down unless already at 0. */
  function VolumeDown(v: Int32): (r: Int32)
    ensures v > 0 ==> r == v - 1
    ensures v <= 0 ==> r == v
    ensures 0 <= v <= 100 ==> 0 <= r <= 100
  {
    if v > 0 then v - 1 else v
  }

  /** Volume key presses in order, true for up and false for down. */
  function VolumePresses(v: Int32, presses: seq<bool>): (r: Int32)
    ensures v - |presses| <= r <= v + |presses|
    decreases |presses|
  {
    if presses == [] then v
    else
      var before := VolumePresses(v, presses[..|presses| - 1]);
      if presses[|presses| - 1] then VolumeUp(before) else VolumeDown(before)
  }

  /** A volume in 0..100 stays in 0..100 however the keys are pressed. */
  lemma {:induction false} VolumePressesInRange(v: Int32, presses: seq<bool>)
    requires 0 <= v <= 100
    ensures 0 <= VolumePresses(v, presses) <= 100
    decreases |presses|
  {
    if presses != [] {
      VolumePressesInRange(v, presses[..|presses| - 1]);
    }
  }

  /** Below the top, a step up is undone by a step down, and above the
      bottom a step down is undone by a step up. */
  lemma VolumeStepsUndo(v: Int32)
    ensures 0 <= v < 100 ==> VolumeDown(VolumeUp(v)) == v
    ensures 0 < v <= 100 ==> VolumeUp(VolumeDown(v)) == v
  {
  }

  class ProjectMWrapper {
    var dbpm: DBPM
    var configPath: string
    var presetName: string
    var presetRating: Int32
    var presetPlaycount: Int32
    var mpdVolume: Int32
    var songPos: Int32
    var cursorDir: CursorDir

    /** The initial values of the fields. `_presetRating` and
        `_presetPlaycount` have no initialiser in the class, so nothing is
        promised about them. */
    constructor ()
      ensures dbpm == map[] && configPath == "" && presetName == ""
      ensures mpdVolume == 100 && MPDQGetSongPos() == 0 && GetCD() == CursorNone
    {
      dbpm := map[];
      configPath := "";
      presetName := "";
      presetRating := 0;
      presetPlaycount := 0;
      mpdVolume := 100;
      songPos := 0;
      cursorDir := CursorNone;
    }

    /** The path `fopen` receives: the configuration path followed by the
        file name, up to the first NUL of `c_str()`. */
    function DbPath(): (p: CString)
      reads this
      ensures p <= configPath + DbFileName
      ensures '\0' !in configPath ==> p == configPath + DbFileName
    {
      CStr(configPath + DbFileName)
    }

    method SetConfigPath(path: string)
      modifies this`configPath
      ensures configPath == path
    {
      configPath := path;
    }

    /** `dbpm.count(pName)`: 1 when the name has a record, else 0. */
    function PresetExists(pName: string): (c: int)
      reads this
      ensures c == 0 || c == 1
      ensures c == 1 <==> pName in dbpm
    {
      if pName in dbpm then 1 else 0
    }

    /** The rating of the current preset: the stored one, or the engine's
        when the preset has no record. Being a lookup through `count`, it
        never inserts. */
    function GetRating(engineRating: Int32): (r: Int32)
      reads this
      ensures presetName in dbpm ==> r == dbpm[presetName].rating
      ensures presetName !in dbpm ==> r == engineRating
    {
      if presetName !in dbpm then engineRating else dbpm[presetName].rating
    }

    /** The play count of the current preset, read through `operator[]`: a
        preset without a record gets `DBPreset{}` and reads 0. */
    method GetPlayCount() returns (c: Int32)
      modifies this`dbpm
      ensures dbpm == PresetStore.Subscript(old(dbpm), presetName)
      ensures c == PresetStore.Record(old(dbpm), presetName).playcount
      ensures presetName !in old(dbpm) ==> c == 0
    {
      if presetName !in dbpm {
        dbpm := dbpm[presetName := DBPreset(0, 0)];
      }
      c := dbpm[presetName].playcount;
    }

    /** `GetPlayCount(pName)`: the same, for a given name. */
    method GetPlayCountOf(pName: string) returns (c: Int32)
      modifies this`dbpm
      ensures dbpm == PresetStore.Subscript(old(dbpm), pName)
      ensures c == PresetStore.Record(old(dbpm), pName).playcount
      ensures pName !in old(dbpm) ==> c == 0
    {
      if pName !in dbpm {
        dbpm := dbpm[pName := DBPreset(0, 0)];
      }
      c := dbpm[pName].playcount;
    }

    /** The engine switched to item `index` of its playlist. `std::string`
        cannot be built from the NULL an index past the end yields, and the
        increment must not overflow. */
    method PresetSwitchedEvent(playlist: seq<CString>, index: nat, engineRating: Int32)
      requires index < |playlist|
      requires playlist[index] in dbpm ==> dbpm[playlist[index]].playcount < INT32_MAX
      modifies this`dbpm, this`presetName, this`presetRating, this`presetPlaycount
      ensures dbpm == PresetStore.Switched(old(dbpm), playlist[index], engineRating)
      ensures presetName == playlist[index] && presetName in dbpm
      ensures presetRating == dbpm[presetName].rating
      ensures presetPlaycount == dbpm[presetName].playcount
    {
      var pname: string := playlist[index];
      presetName := pname;
      var pc: Int32 := 0;
      var r := engineRating;
      if pname in dbpm {
        pc := dbpm[pname].playcount;
        r := dbpm[pname].rating;
      } else {
        dbpm := dbpm[pname := DBPreset(r, pc)];
        dbpm := dbpm[pname := dbpm[pname].(rating := r)];
      }
      dbpm := dbpm[pname := dbpm[pname].(playcount := dbpm[pname].playcount + 1)];
      presetRating := dbpm[pname].rating;
      presetPlaycount := dbpm[pname].playcount;
    }

    method RatingDown()
      modifies this`dbpm
      ensures dbpm == PresetStore.RatingDown(old(dbpm), presetName)
    {
      if presetName !in dbpm {
        dbpm := dbpm[presetName := DBPreset(0, 0)];
      }
      if dbpm[presetName].rating > 0 {
        dbpm := dbpm[presetName := dbpm[presetName].(rating := dbpm[presetName].rating - 1)];
      }
    }

    method RatingUp()
      modifies this`dbpm
      ensures dbpm == PresetStore.RatingUp(old(dbpm), presetName)
    {
      if presetName !in dbpm {
        dbpm := dbpm[presetName := DBPreset(0, 0)];
      }
      if dbpm[presetName].rating < 5 {
        dbpm := dbpm[presetName := dbpm[presetName].(rating := dbpm[presetName].rating + 1)];
      }
    }

    method SetRating(rating: Int32)
      modifies this`dbpm
      ensures dbpm == PresetStore.SetRating(old(dbpm), presetName, rating)
    {
      if rating < 0 || rating > 5 {
        return;
      }
      if presetName !in dbpm {
        dbpm := dbpm[presetName := DBPreset(0, 0)];
      }
      dbpm := dbpm[presetName := dbpm[presetName].(rating := rating)];
    }

    method SetPlaycount(playcount: Int32)
      modifies this`dbpm
      ensures dbpm == PresetStore.SetPlaycount(old(dbpm), presetName, playcount)
    {
      if presetName !in dbpm {
        dbpm := dbpm[presetName := DBPreset(0, 0)];
      }
      dbpm := dbpm[presetName := dbpm[presetName].(playcount := playcount)];
    }

    /** Reads the rating file line by line and inserts each record; a name
        that already has a record keeps it. Nothing happens when the file
        cannot be opened. The source does not guard against a line it cannot
        read, so every line must be readable. */
    method LoadDBPresets(fs: FileSystem)
      requires DbPath() in fs ==> WellFormedFile(fs[DbPath()])
      modifies this`dbpm
      ensures DbPath() !in fs ==> dbpm == old(dbpm)
      ensures DbPath() in fs ==> dbpm == InsertAll(old(dbpm), ParseFile(fs[DbPath()]))
    {
      var path := DbPath();
      if path in fs {
        var lines := SplitLines(fs[path]);
        var i := 0;
        while i < |lines|
          invariant 0 <= i <= |lines|
          invariant AllWellFormed(lines[..i])
          invariant dbpm == InsertAll(old(dbpm), ParseAll(lines[..i]))
        {
          var line := CStr(lines[i]);
          var rating := ScanInt(line, 0).value;
          var playcount := ScanInt(line, rating.1).value;
          var name := LineName(line);
          LoadStep(old(dbpm), lines, i);
          if name !in dbpm {
            dbpm := dbpm[name := DBPreset(rating.0, playcount.0)];
          }
          i := i + 1;
        }
        PrefixAll(lines);
      }
    }

    /** The save loop of `uninitialize`: the file is opened for writing,
        which empties it, then every playlist item, in index order up to the
        end of the playlist, whose record has a positive play count is written
        as one line. The open stream is the string `filedb`, stored under the
        path once the loop is done. */
    method Uninitialize(fs: FileSystem, playlist: seq<CString>) returns (written: FileSystem)
      ensures written == fs[DbPath() := SaveText(dbpm, playlist)]
    {
      var db := dbpm;
      var filedb := "";
      var pli := 0;
      while true
        invariant 0 <= pli <= |playlist|
        invariant filedb == SaveText(db, playlist[..pli])
        decreases |playlist| - pli
      {
        if pli < |playlist| {
          var plitem := playlist[pli];
          SaveTextStep(db, playlist, pli);
          if plitem in db && db[plitem].playcount > 0 {
            filedb := filedb + FormatLine(db[plitem].rating, db[plitem].playcount, plitem);
          }
          pli := pli + 1;
        } else {
          break;
        }
      }
      PrefixAll(playlist);
      written := fs[DbPath() := filedb];
    }

    method MPDVolumeUp()
      modifies this`mpdVolume
      ensures mpdVolume == VolumeUp(old(mpdVolume))
    {
      if mpdVolume < 100 {
        mpdVolume := mpdVolume + 1;
      }
    }

    method MPDVolumeDown()
      modifies this`mpdVolume
      ensures mpdVolume == VolumeDown(old(mpdVolume))
    {
      if mpdVolume > 0 {
        mpdVolume := mpdVolume - 1;
      }
    }

    method SetCursorDirUp()
      modifies this`cursorDir
      ensures cursorDir == CursorUp
    {
      cursorDir := CursorUp;
    }

    method SetCursorDirDown()
      modifies this`cursorDir
      ensures cursorDir == CursorDown
    {
      cursorDir := CursorDown;
    }

    method SetCursorDirPageUp()
      modifies this`cursorDir
      ensures cursorDir == CursorPageUp
    {
      cursorDir := CursorPageUp;
    }

    method SetCursorDirPageDown()
      modifies this`cursorDir
      ensures cursorDir == CursorPageDown
    {
      cursorDir := CursorPageDown;
    }

    method SetCursorDirNone()
      modifies this`cursorDir
      ensures cursorDir == CursorNone
    {
      cursorDir := CursorNone;
    }

    function GetCD(): CursorDir
      reads this
    {
      cursorDir
    }

    method SetCD(cdir: CursorDir)
      modifies this`cursorDir
      ensures GetCD() == cdir
    {
      cursorDir := cdir;
    }

    function MPDQGetSongPos(): Int32
      reads this
    {
      songPos
    }
  }
}
