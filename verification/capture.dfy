/** `MainWindow`'s capture path: a user is chosen, a meal type is pressed, and
    one second later `save_file` writes the RGBD container, starts the
    upload, and appends a record to the day's JSON log; plus the config
    write-back. The clock, the filesystem, the camera and the upload are
    inputs and outputs of pure functions. */
module Capture {
  import opened Wrappers
  import opened Decimal
  import NpzFile
  import DC = DepthCamera
  import RgbdReader
  import TestModule

  // ---------------------------------------------------------------- time and paths

  /** A local wall-clock reading. Years have four digits, as `%Y` prints them. */
  datatype Stamp = Stamp(year: nat, month: nat, day: nat, hour: nat, minute: nat, second: nat)

  predicate ValidStamp(t: Stamp) {
    && 1000 <= t.year <= 9999 && 1 <= t.month <= 12 && 1 <= t.day <= 31
    && t.hour < 24 && t.minute < 60 && t.second < 60
  }

  /** `strftime("%Y%m%d%H%M%S")`: fourteen digits, each field zero-padded. */
  function StampText(t: Stamp): (s: string)
    requires ValidStamp(t)
    ensures |s| == 14 && AllDigits(s)
  {
    Pad(t.year, 4) + Pad(t.month, 2) + Pad(t.day, 2) + Pad(t.hour, 2) + Pad(t.minute, 2) + Pad(t.second, 2)
  }

  /** `strftime("%Y%m%d")`, the name of the day's folder. */
  function DayText(t: Stamp): (s: string)
    requires ValidStamp(t)
    ensures |s| == 8 && AllDigits(s)
    ensures NatOf(s[..4]) == t.year && NatOf(s[4..6]) == t.month && NatOf(s[6..8]) == t.day
    ensures s == StampText(t)[..8]
  {
    var s := Pad(t.year, 4) + Pad(t.month, 2) + Pad(t.day, 2);
    assert s[..4] == Pad(t.year, 4) && s[4..6] == Pad(t.month, 2) && s[6..8] == Pad(t.day, 2);
    PadRoundTrip(t.year, 4);
    PadRoundTrip(t.month, 2);
    PadRoundTrip(t.day, 2);
    s
  }

  /** `strftime('%Y-%m-%d')`, the payload's meal date. */
  function DateText(t: Stamp): (s: string)
    requires ValidStamp(t)
    ensures |s| == 10 && s[4] == '-' && s[7] == '-'
    ensures AllDigits(s[..4]) && AllDigits(s[5..7]) && AllDigits(s[8..])
    ensures NatOf(s[..4]) == t.year && NatOf(s[5..7]) == t.month && NatOf(s[8..]) == t.day
  {
    var s := Pad(t.year, 4) + "-" + Pad(t.month, 2) + "-" + Pad(t.day, 2);
    assert s[..4] == Pad(t.year, 4) && s[5..7] == Pad(t.month, 2) && s[8..] == Pad(t.day, 2);
    PadRoundTrip(t.year, 4);
    PadRoundTrip(t.month, 2);
    PadRoundTrip(t.day, 2);
    s
  }

  /** Reads a stamp back from its fourteen digits. */
  function ParseStamp(s: string): (t: Stamp)
    requires |s| == 14 && AllDigits(s)
  {
    Stamp(NatOf(s[0..4]), NatOf(s[4..6]), NatOf(s[6..8]), NatOf(s[8..10]), NatOf(s[10..12]), NatOf(s[12..14]))
  }

  /** The stamp text determines the stamp: parsing it gives every field back. */
  lemma StampRoundTrip(t: Stamp)
    requires ValidStamp(t)
    ensures ParseStamp(StampText(t)) == t
  {
    var s := StampText(t);
    assert s[0..4] == Pad(t.year, 4);
    assert s[4..6] == Pad(t.month, 2);
    assert s[6..8] == Pad(t.day, 2);
    assert s[8..10] == Pad(t.hour, 2);
    assert s[10..12] == Pad(t.minute, 2);
    assert s[12..] == Pad(t.second, 2);
    assert s[12..14] == Pad(t.second, 2);
    PadRoundTrip(t.year, 4);
    PadRoundTrip(t.month, 2);
    PadRoundTrip(t.day, 2);
    PadRoundTrip(t.hour, 2);
    PadRoundTrip(t.minute, 2);
    PadRoundTrip(t.second, 2);
  }

  /** `os.path.join(a, b)` for POSIX paths: an absolute `b` replaces `a`; a
      separator is inserted unless `a` is empty or already ends in one. */
  function Join(a: string, b: string): (p: string)
    ensures |b| > 0 && b[0] != '/' ==> |p| >= |b| && p[|p| - |b|..] == b
    ensures |b| > 0 && b[0] != '/' && |a| > 0 ==> |p| > |a| && p[..|a|] == a
    ensures |a| > 0 && a[|a| - 1] != '/' && |b| > 0 && b[0] != '/' ==> p == a + "/" + b
    ensures |b| > 0 && b[0] == '/' ==> p == b
  {
    if |b| > 0 && b[0] == '/' then b
    else if |a| == 0 || a[|a| - 1] == '/' then a + b
    else a + "/" + b
  }

  /** `save_folder`: the day's folder under the configured directory, fixed
      at start-up from the start-up date. */
  function SaveFolder(saveDir: string, startUp: Stamp): (p: string)
    requires ValidStamp(startUp)
    ensures |p| >= 8 && p[|p| - 8..] == DayText(startUp) && p[|p| - 1] != '/'
    ensures |saveDir| > 0 ==> |p| > |saveDir| && p[..|saveDir|] == saveDir
    ensures |saveDir| > 0 && saveDir[|saveDir| - 1] != '/' ==> p == saveDir + "/" + DayText(startUp)
  {
    Join(saveDir, DayText(startUp))
  }

  /** `json_path`: the day's log file. */
  function JsonPath(saveFolder: string): (p: string)
    ensures |p| >= 9 && p[|p| - 9..] == "data.json"
    ensures |saveFolder| > 0 && saveFolder[|saveFolder| - 1] != '/' ==> p == saveFolder + "/data.json"
  {
    Join(saveFolder, "data.json")
  }

  /** The two meal buttons of the user panel. */
  datatype MealButton = BeforeMeal | AfterMeal

  /** The int a meal button sends as `save_type`: 0 before the meal, 1 after. */
  function MealCode(b: MealButton): (c: nat)
    ensures c < 2
    ensures c == 0 <==> b.BeforeMeal?
  {
    match b
    case BeforeMeal => 0
    case AfterMeal => 1
  }

  /** `str(self.save_type)`: the meal type's decimal digits, or `None` when none is set. */
  function SaveTypeText(saveType: Option<nat>): (s: string)
    ensures saveType.Some? ==> |s| > 0 && AllDigits(s) && NatOf(s) == saveType.value
    ensures saveType.None? ==> s == "None"
  {
    match saveType
    case Some(t) => NatToStringRoundTrip(t); NatToString(t)
    case None => "None"
  }

  /** Reads a meal type back from its text: `None`, or decimal digits. */
  function ParseSaveType(s: string): Option<Option<nat>> {
    if s == "None" then Some(None)
    else if |s| > 0 && AllDigits(s) then Some(Some(NatOf(s)))
    else None
  }

  /** The meal type's text determines the meal type. */
  lemma SaveTypeRoundTrip(saveType: Option<nat>)
    ensures ParseSaveType(SaveTypeText(saveType)) == Some(saveType)
  {
    if saveType.Some? {
      var s := SaveTypeText(saveType);
      assert IsDigit(s[0]);
      assert s != "None";
    }
  }

  /** The capture's file name: `{stamp}_{user_id}_{save_type}`. */
  function FileName(now: Stamp, userId: nat, saveType: Option<nat>): (name: string)
    requires ValidStamp(now)
    ensures |name| > 16 && name[14] == '_'
    ensures name[..14] == StampText(now)
  {
    StampText(now) + "_" + NatToString(userId) + "_" + SaveTypeText(saveType)
  }

  /** The container's path: `{save_folder}/{file_name}.npz`. */
  function FilePath(saveFolder: string, fileName: string): (p: string)
    requires |fileName| > 0 && fileName[0] != '/'
    ensures |p| >= |fileName| + 4 && p[|p| - |fileName| - 4..] == fileName + ".npz"
    ensures |saveFolder| > 0 && saveFolder[|saveFolder| - 1] != '/' ==> p == saveFolder + "/" + fileName + ".npz"
  {
    Join(saveFolder, fileName + ".npz")
  }

  /** Everything a day's captures write sits directly in that day's folder:
      the folder is the start-up date under the configured directory, the
      container is `{folder}/{name}.npz` and the log `{folder}/data.json`. */
  lemma DayFolderFiles(saveDir: string, startUp: Stamp, fileName: string)
    requires ValidStamp(startUp) && |fileName| > 0 && fileName[0] != '/'
    ensures var folder := SaveFolder(saveDir, startUp);
      && FilePath(folder, fileName) == folder + "/" + fileName + ".npz"
      && JsonPath(folder) == folder + "/data.json"
      && (|saveDir| > 0 && saveDir[|saveDir| - 1] != '/' ==> folder == saveDir + "/" + DayText(startUp))
  {
  }

  /** The index of the first `_` in `s`, or `|s|` when there is none. */
  function Underscore(s: string): (i: nat)
    ensures i <= |s|
    ensures i < |s| ==> s[i] == '_'
    ensures forall k :: 0 <= k < i ==> s[k] != '_'
  {
    if |s| == 0 || s[0] == '_' then 0 else 1 + Underscore(s[1..])
  }

  /** Splits a capture name into its stamp, user id and meal type: the stamp
      is the fourteen digits before the first `_`, the user id the digits
      up to the next `_`, the meal type everything after it. */
  function ParseFileName(name: string): Option<(Stamp, nat, Option<nat>)> {
    if |name| < 15 || name[14] != '_' || !AllDigits(name[..14]) then None
    else
      var rest := name[15..];
      var i := Underscore(rest);
      if i == 0 || i == |rest| || !AllDigits(rest[..i]) then None
      else match ParseSaveType(rest[i + 1..])
        case None => None
        case Some(saveType) => Some((ParseStamp(name[..14]), NatOf(rest[..i]), saveType))
  }

  /** The file name can be decoded: the stamp, the user id and the meal
      type all come back. */
  lemma FileNameRoundTrip(now: Stamp, userId: nat, saveType: Option<nat>)
    requires ValidStamp(now)
    ensures ParseFileName(FileName(now, userId, saveType)) == Some((now, userId, saveType))
  {
    var name := FileName(now, userId, saveType);
    var digits := NatToString(userId);
    var st := SaveTypeText(saveType);
    assert name[..14] == StampText(now);
    var rest := name[15..];
    assert rest == digits + "_" + st;
    assert Underscore(rest) == |digits| by {
      forall k | 0 <= k < |digits| ensures rest[k] != '_' {
        assert rest[k] == digits[k];
      }
      UnderscoreAt(rest, |digits|);
    }
    assert rest[..|digits|] == digits;
    assert rest[|digits| + 1..] == st;
    StampRoundTrip(now);
    NatToStringRoundTrip(userId);
    SaveTypeRoundTrip(saveType);
  }

  /** `Underscore` finds the first `_`. */
  lemma {:induction false} UnderscoreAt(s: string, i: nat)
    requires i < |s| && s[i] == '_'
    requires forall k :: 0 <= k < i ==> s[k] != '_'
    ensures Underscore(s) == i
    decreases i
  {
    if i > 0 {
      UnderscoreAt(s[1..], i - 1);
    }
  }

  // ---------------------------------------------------------------- the log

  /** The day's log as `save_json` finds it: no file yet, a JSON object, or
      some other JSON value (on which `update` fails). */
  datatype LogFile<V> = NoFile | ObjectFile(entries: map<string, V>) | OtherJson

  datatype LogError = NotAnObject

  /** `save_json`: load the log (empty when absent), overwrite it with the new
      entries, write it back. New keys win; every other key keeps its value. */
  function SaveJson<V>(file: LogFile<V>, data: map<string, V>): (r: Result<map<string, V>, LogError>)
    ensures r.Success? <==> !file.OtherJson?
    ensures r.Success? ==>
      && r.value.Keys == (if file.ObjectFile? then file.entries.Keys else {}) + data.Keys
      && (forall k :: k in data ==> r.value[k] == data[k])
      && (forall k :: file.ObjectFile? && k in file.entries && k !in data ==> r.value[k] == file.entries[k])
  {
    match file
    case NoFile => Success(data)
    case ObjectFile(entries) => Success(entries + data)
    case OtherJson => Failure(NotAnObject)
  }

  /** Without a log file the new log is exactly the new entries. */
  lemma SaveJsonFresh<V>(data: map<string, V>)
    ensures SaveJson(NoFile, data) == Success(data)
  {
  }

  /** One entry merged in: the log holds it under its key, gains no other key,
      and keeps every other entry. */
  lemma SaveJsonOne<V>(file: LogFile<V>, key: string, v: V)
    requires !file.OtherJson?
    ensures var r := SaveJson(file, map[key := v]);
      && r.Success? && key in r.value && r.value[key] == v
      && r.value.Keys == (if file.ObjectFile? then file.entries.Keys else {}) + {key}
      && (forall k :: file.ObjectFile? && k in file.entries && k != key ==> r.value[k] == file.entries[k])
  {
  }

  /** Merging the same entries twice gives the log merging them once gives. */
  lemma SaveJsonIdempotent<V>(file: LogFile<V>, data: map<string, V>)
    requires !file.OtherJson?
    ensures SaveJson(ObjectFile(SaveJson(file, data).value), data) == SaveJson(file, data)
  {
    var once := SaveJson(file, data).value;
    assert once + data == once;
  }

  /** Entries are merged one capture at a time exactly as they would be all at once. */
  lemma SaveJsonTwice<V>(file: LogFile<V>, a: map<string, V>, b: map<string, V>)
    requires !file.OtherJson?
    ensures SaveJson(ObjectFile(SaveJson(file, a).value), b) == SaveJson(file, a + b)
  {
    if file.ObjectFile? {
      assert file.entries + a + b == file.entries + (a + b);
    }
  }

  // ---------------------------------------------------------------- config

  /** `config[section]` on a section the config lacks raises; the sections
      that would are all named, since which one the loop meets first depends
      on the dict's order. */
  datatype ConfigError = MissingSections(sections: set<string>)

  /** `save_config`: for each given section and attribute, store the value's
      text; a section the config lacks raises. `str` is Python's `str`. */
  function SaveConfig<V>(config: map<string, map<string, string>>, data: map<string, map<string, V>>, str: V -> string)
    : (r: Result<map<string, map<string, string>>, ConfigError>)
    ensures r.Success? <==> data.Keys <= config.Keys
    ensures r.Failure? ==> r.error.sections == data.Keys - config.Keys
    ensures r.Success? ==> r.value.Keys == config.Keys
    ensures r.Success? ==> forall s, a :: s in data && a in data[s] ==> a in r.value[s] && r.value[s][a] == str(data[s][a])
    ensures r.Success? ==> forall s :: s in config ==>
      r.value[s].Keys == config[s].Keys + (if s in data then data[s].Keys else {})
    ensures r.Success? ==> forall s, a :: s in config && a in config[s] && !(s in data && a in data[s]) ==>
      r.value[s][a] == config[s][a]
  {
    if !(data.Keys <= config.Keys) then
      Failure(MissingSections(data.Keys - config.Keys))
    else
      Success(map s | s in config :: if s in data then config[s] + map a | a in data[s] :: str(data[s][a]) else config[s])
  }

  /** Writing the same values twice leaves the config as writing them once. */
  lemma SaveConfigIdempotent<V>(config: map<string, map<string, string>>, data: map<string, map<string, V>>, str: V -> string)
    requires data.Keys <= config.Keys
    ensures SaveConfig(SaveConfig(config, data, str).value, data, str) == SaveConfig(config, data, str)
  {
    var once := SaveConfig(config, data, str).value;
    var twice := SaveConfig(once, data, str).value;
    forall s | s in config ensures twice[s] == once[s] {
      if s in data {
        var upd := map a | a in data[s] :: str(data[s][a]);
        assert once[s] == config[s] + upd;
        assert twice[s] == once[s] + upd;
        assert once[s] + upd == once[s];
      }
    }
    assert twice == once;
  }

  /** The dict the calibration emits, if it were passed to `save_config`:
      the write-back succeeds exactly when the config has a `weight` section,
      stores the unit's text as that section's `reference_unit`, and leaves
      everything else as it was. Nothing in the window connects the signal
      to `save_config`; this states what the two halves would do together. */
  lemma CalibrationSaved(config: map<string, map<string, string>>, unit: real, str: real -> string)
    ensures var r := SaveConfig(config, TestModule.ConfigUpdate(unit), str);
      && (r.Success? <==> "weight" in config)
      && (r.Success? ==> r.value["weight"]["reference_unit"] == str(unit))
      && (r.Success? ==> forall s, a :: s in config && a in config[s] && (s, a) != ("weight", "reference_unit") ==>
            a in r.value[s] && r.value[s][a] == config[s][a])
  {
    var data := TestModule.ConfigUpdate(unit);
    assert data.Keys == {"weight"};
    assert data["weight"].Keys == {"reference_unit"};
  }

  // ---------------------------------------------------------------- capture

  /** The selected user's record: the fields the capture path reads. */
  datatype User = User(userId: nat, name: string)

  /** One line of the day's log; the meal type is kept as the JSON number. */
  datatype LogEntry = LogEntry(userId: nat, weight: real, saveType: Option<nat>, isUpload: int)

  /** The upload worker's input. */
  datatype Payload = Payload(userId: nat, weight: real, mealDate: string, saveType: Option<nat>)
  datatype UploadJob = UploadJob(payload: Payload, filePath: string, fileName: string)

  /** The window's capture state, the weight reader's published value, the
      camera, and the files the capture path writes. */
  datatype Main = Main(
    userData: Option<User>,
    saveType: Option<nat>,
    isUpload: int,
    timerOn: bool,
    weightReaderOk: bool,
    readerVal: real,
    camera: DC.Camera,
    saveFolder: string,
    files: map<string, NpzFile.Container>,
    log: LogFile<LogEntry>)

  /** The weight a capture records: the reader's value when the reader came
      up, else 0. */
  function RecordedWeight(weightReaderOk: bool, readerVal: real): (w: real)
    ensures weightReaderOk ==> w == readerVal
    ensures !weightReaderOk ==> w == 0.0
  {
    if weightReaderOk then readerVal else 0.0
  }

  /** `user_button_handler`: remember the chosen user. */
  function UserButtonHandler(m: Main, user: User): (r: Main)
    ensures r.userData == Some(user) && r.(userData := m.userData) == m
  {
    m.(userData := Some(user))
  }

  /** `user_control_handler`: remember the meal type and arm the one-second timer. */
  function UserControlHandler(m: Main, saveType: nat): (r: Main)
    ensures r.saveType == Some(saveType) && r.timerOn
    ensures r.(saveType := m.saveType, timerOn := m.timerOn) == m
  {
    m.(saveType := Some(saveType), timerOn := true)
  }

  /** `return_upload_result`: the upload worker's verdict, whenever it arrives. */
  function ReturnUploadResult(m: Main, isUpload: int): (r: Main)
    ensures r.isUpload == isUpload && r.(isUpload := m.isUpload) == m
  {
    m.(isUpload := isUpload)
  }

  datatype CaptureError =
    | NoUser        // `None['user_id']`: no user selected
    | CameraError   // the camera's `save_file` raised: no frame read yet
    | LogError      // the log file holds something other than an object

  /** What one timer tick of `save_file` leaves behind: the state, the upload
      it started, and the error that stopped it, if any. */
  datatype SaveOutcome = SaveOutcome(main: Main, upload: Option<UploadJob>, error: Option<CaptureError>)

  /** `save_file`. The timer is stopped first, whatever follows. The name and
      path are built from the clock, the user and the meal type; the camera
      writes its container; the upload is started; the log gains one entry
      keyed by the file name; the per-capture fields are cleared. Each step
      runs only if the ones before it did not raise. `now` and `today` are
      the two clock readings the method takes. */
  function SaveFile(m: Main, now: Stamp, today: Stamp): (r: SaveOutcome)
    requires ValidStamp(now) && ValidStamp(today) && DC.Valid(m.camera)
    ensures !r.main.timerOn
    ensures r.upload.Some? <==> m.userData.Some? && m.camera.depthIntrinsic.Some?
    ensures r.error.None? <==> r.upload.Some? && !m.log.OtherJson?
    ensures r.error == Some(LogError) ==>
      && m.userData.Some? && r.upload.Some?
      && var path := FilePath(m.saveFolder, FileName(now, m.userData.value.userId, m.saveType));
        && r.upload.value.filePath == path
        && r.main.files == m.files[path := DC.SaveFile(m.camera).value]
  {
    var stopped := m.(timerOn := false);
    match m.userData
    case None => SaveOutcome(stopped, None, Some(NoUser))
    case Some(user) =>
      var fileName := FileName(now, user.userId, m.saveType);
      var filePath := FilePath(m.saveFolder, fileName);
      match DC.SaveFile(m.camera)
      case Failure(_) => SaveOutcome(stopped, None, Some(CameraError))
      case Success(container) =>
        var written := stopped.(files := m.files[filePath := container]);
        var weight := RecordedWeight(m.weightReaderOk, m.readerVal);
        var job := UploadJob(Payload(user.userId, weight, DateText(today), m.saveType), filePath, fileName);
        var entry := LogEntry(user.userId, weight, m.saveType, m.isUpload);
        match SaveJson(m.log, map[fileName := entry])
        case Failure(_) => SaveOutcome(written, Some(job), Some(LogError))
        case Success(entries) =>
          SaveOutcome(written.(log := ObjectFile(entries), userData := None, saveType := None, isUpload := 0),
                      Some(job), None)
  }

  /** A successful capture: the log gains exactly one entry, keyed by the
      capture's name and holding the user, the recorded weight, the meal type
      and the upload flag as they stood; the upload carries the same user,
      weight and type; the container sits at the capture's path; the
      per-capture fields are cleared and nothing else in the log changes. */
  lemma CaptureRecorded(m: Main, now: Stamp, today: Stamp)
    requires ValidStamp(now) && ValidStamp(today) && DC.Valid(m.camera)
    requires m.userData.Some? && m.camera.depthIntrinsic.Some? && !m.log.OtherJson?
    ensures SaveFile(m, now, today).error.None?
    ensures var r := SaveFile(m, now, today);
      var name := FileName(now, m.userData.value.userId, m.saveType);
      && r.main.log.ObjectFile?
      && r.main.log.entries[name]
         == LogEntry(m.userData.value.userId, RecordedWeight(m.weightReaderOk, m.readerVal), m.saveType, m.isUpload)
      && (forall k :: m.log.ObjectFile? && k in m.log.entries && k != name ==> r.main.log.entries[k] == m.log.entries[k])
      && r.main.log.entries.Keys == (if m.log.ObjectFile? then m.log.entries.Keys else {}) + {name}
    ensures var r := SaveFile(m, now, today);
      var name := FileName(now, m.userData.value.userId, m.saveType);
      && r.upload.value.payload
         == Payload(m.userData.value.userId, RecordedWeight(m.weightReaderOk, m.readerVal), DateText(today), m.saveType)
      && r.upload.value.fileName == name
    ensures var r := SaveFile(m, now, today);
      && r.main.userData.None? && r.main.saveType.None? && r.main.isUpload == 0 && !r.main.timerOn
      && r.main.camera == m.camera
  {
    var name := FileName(now, m.userData.value.userId, m.saveType);
    var entry := LogEntry(m.userData.value.userId, RecordedWeight(m.weightReaderOk, m.readerVal), m.saveType, m.isUpload);
    SaveJsonOne(m.log, name, entry);
    SaveFileWrites(m, now, today);
  }

  /** Whether or not the log can be written, a capture that gets past the
      user and the camera stores the container at `{save_folder}/{file_name}.npz`,
      tells the upload that path, and leaves every other file as it was. */
  lemma CaptureStored(m: Main, now: Stamp, today: Stamp)
    requires ValidStamp(now) && ValidStamp(today) && DC.Valid(m.camera)
    requires m.userData.Some? && m.camera.depthIntrinsic.Some?
    ensures var r := SaveFile(m, now, today);
      var path := FilePath(m.saveFolder, FileName(now, m.userData.value.userId, m.saveType));
      && r.upload.Some? && r.upload.value.filePath == path
      && r.main.files == m.files[path := DC.SaveFile(m.camera).value]
  {
    SaveFileWrites(m, now, today);
  }

  /** The outcome of a capture that gets past the user and the camera. */
  lemma SaveFileWrites(m: Main, now: Stamp, today: Stamp)
    requires ValidStamp(now) && ValidStamp(today) && DC.Valid(m.camera)
    requires m.userData.Some? && m.camera.depthIntrinsic.Some?
    ensures var user := m.userData.value;
      var name := FileName(now, user.userId, m.saveType);
      var path := FilePath(m.saveFolder, name);
      var weight := RecordedWeight(m.weightReaderOk, m.readerVal);
      var written := m.(timerOn := false, files := m.files[path := DC.SaveFile(m.camera).value]);
      var job := UploadJob(Payload(user.userId, weight, DateText(today), m.saveType), path, name);
      var merged := SaveJson(m.log, map[name := LogEntry(user.userId, weight, m.saveType, m.isUpload)]);
      SaveFile(m, now, today)
        == if merged.Failure? then SaveOutcome(written, Some(job), Some(LogError))
           else SaveOutcome(written.(log := ObjectFile(merged.value), userData := None, saveType := None, isUpload := 0),
                            Some(job), None)
  {
  }

  /** The timer fires once per capture: a second tick after a successful
      capture finds no user and fails before writing anything. */
  lemma FiresOnce(m: Main, now: Stamp, today: Stamp, later: Stamp)
    requires ValidStamp(now) && ValidStamp(today) && ValidStamp(later) && DC.Valid(m.camera)
    requires m.userData.Some? && m.camera.depthIntrinsic.Some? && !m.log.OtherJson?
    ensures var r := SaveFile(m, now, today);
      && r.error.None?
      && SaveFile(r.main, later, later) == SaveOutcome(r.main, None, Some(NoUser))
  {
  }

  /** The whole cycle: a user is chosen, a meal type pressed, the timer fires.
      The entry logged carries that user and meal type, and the window is back
      to no user, no meal type and the upload flag cleared. */
  lemma CaptureCycle(m: Main, user: User, saveType: nat, now: Stamp, today: Stamp)
    requires ValidStamp(now) && ValidStamp(today) && DC.Valid(m.camera)
    requires m.camera.depthIntrinsic.Some? && !m.log.OtherJson?
    ensures var armed := UserControlHandler(UserButtonHandler(m, user), saveType);
      var r := SaveFile(armed, now, today);
      var name := FileName(now, user.userId, Some(saveType));
      && armed.timerOn
      && r.error.None?
      && r.main.log.entries[name] == LogEntry(user.userId, RecordedWeight(m.weightReaderOk, m.readerVal), Some(saveType), m.isUpload)
      && ParseFileName(name) == Some((now, user.userId, Some(saveType)))
      && r.main.userData.None? && r.main.saveType.None? && r.main.isUpload == 0 && !r.main.timerOn
  {
    var armed := UserControlHandler(UserButtonHandler(m, user), saveType);
    CaptureRecorded(armed, now, today);
    FileNameRoundTrip(now, user.userId, Some(saveType));
  }

  /** What a capture writes can be read back: loading the file at the
      upload's path gives the camera's last colour image unchanged, its last
      depth map scaled to metres, and the latched focal lengths. */
  lemma CaptureReadsBack(m: Main, now: Stamp, today: Stamp)
    requires ValidStamp(now) && ValidStamp(today) && DC.Valid(m.camera)
    requires m.userData.Some? && m.camera.depthIntrinsic.Some?
    ensures var r := SaveFile(m, now, today);
      var path := r.upload.value.filePath;
      && path in r.main.files
      && RgbdReader.LoadRgbd(path, r.main.files[path])
         == Success(RgbdReader.RgbdData(path, m.camera.colorImage.value,
                                        RgbdReader.ScaleDepth(m.camera.depthImage.value, m.camera.depthScale),
                                        m.camera.depthIntrinsic.value.fx, m.camera.depthIntrinsic.value.fy))
  {
    RgbdReader.RoundTrip(m.camera);
  }
}
