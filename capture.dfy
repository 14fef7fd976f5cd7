/** captureData.py: replays a recorded scenario once per line of a weather
    file, with the cameras of a `.cam` file attached to the ego vehicle,
    and finally renumbers the saved images. The simulator calls are left
    out; what remains is the text handling that decides which runs happen,
    where their images go, and when the final renumbering runs. */
module Capture {
  import opened Text
  import opened Format
  import opened Chunking
  import opened PostProcess

  // ---------------------------------------------------------------------
  // weatherHandler

  /** The six `carla.WeatherParameters` fields the script sets. */
  datatype Weather = Weather(cloudyness: real, precipitation: real, precipitationDeposits: real,
                             windIntensity: real, sunAzimuthAngle: real, sunAltitudeAngle: real)

  predicate Within(v: real, lo: real, hi: real)
  {
    lo <= v <= hi
  }

  /** The ranges the script accepts, every bound included: clouds, rain,
      water and wind in [0, 100], azimuth in [0, 360], altitude in
      [-90, 90]. */
  predicate Acceptable(w: Weather)
  {
    && Within(w.cloudyness, 0.0, 100.0)
    && Within(w.precipitation, 0.0, 100.0)
    && Within(w.precipitationDeposits, 0.0, 100.0)
    && Within(w.windIntensity, 0.0, 100.0)
    && Within(w.sunAzimuthAngle, 0.0, 360.0)
    && Within(w.sunAltitudeAngle, -90.0, 90.0)
  }

  /** The six comma-separated fields read with `float`, in column order. */
  function ParseWeather(args: seq<string>, toFloat: string -> real): Weather
    requires |args| == 6
  {
    Weather(toFloat(args[0]), toFloat(args[1]), toFloat(args[2]),
            toFloat(args[3]), toFloat(args[4]), toFloat(args[5]))
  }

  /** `weatherHandler(line, lineCounter)`: None where the script prints an
      error and returns nothing. A line without exactly five commas is
      rejected; otherwise each field is range-checked in turn. */
  function WeatherHandler(line: string, toFloat: string -> real): (r: Option<Weather>)
    ensures |Split(line, ',')| != 6 ==> r == None
    ensures r.Some? ==> Acceptable(r.value)
  {
    var args := Split(line, ',');
    if |args| != 6 then None
    else
      var clouds := toFloat(args[0]);
      var rain := toFloat(args[1]);
      var water := toFloat(args[2]);
      var wind := toFloat(args[3]);
      var azimuth := toFloat(args[4]);
      var altitude := toFloat(args[5]);
      if clouds > 100.0 || clouds < 0.0 then None
      else if rain > 100.0 || rain < 0.0 then None
      else if water > 100.0 || water < 0.0 then None
      else if wind > 100.0 || wind < 0.0 then None
      else if azimuth > 360.0 || azimuth < 0.0 then None
      else if altitude > 90.0 || altitude < -90.0 then None
      else Some(Weather(cloudyness := clouds, precipitation := rain, precipitationDeposits := water,
                        windIntensity := wind, sunAzimuthAngle := azimuth, sunAltitudeAngle := altitude))
  }

  /** A line is accepted exactly when it has six comma-separated fields
      whose values are all in range, and then carries those values; a line
      without exactly five commas is always rejected. */
  lemma WeatherHandlerAccepts(line: string, toFloat: string -> real)
    ensures Count(line, ',') != 5 ==> WeatherHandler(line, toFloat) == None
    ensures WeatherHandler(line, toFloat).Some? <==>
      |Split(line, ',')| == 6 && Acceptable(ParseWeather(Split(line, ','), toFloat))
    ensures WeatherHandler(line, toFloat).Some? ==>
      WeatherHandler(line, toFloat).value == ParseWeather(Split(line, ','), toFloat)
  {
  }

  /** A line written as six comma-free fields joined by commas is accepted
      exactly when the values are in range, and then carries them. */
  lemma WeatherLine(fields: seq<string>, toFloat: string -> real)
    requires |fields| == 6 && forall k :: 0 <= k < 6 ==> ',' !in fields[k]
    ensures var w := ParseWeather(fields, toFloat);
      WeatherHandler(Join(fields, ','), toFloat) == if Acceptable(w) then Some(w) else None
  {
    SplitJoin(fields, ',');
  }

  // ---------------------------------------------------------------------
  // The output directory of one run

  /** The weather values as `'%d'` writes them: truncated toward zero. */
  function WeatherValues(w: Weather): seq<int>
  {
    [Trunc(w.cloudyness), Trunc(w.precipitation), Trunc(w.precipitationDeposits),
     Trunc(w.windIntensity), Trunc(w.sunAzimuthAngle), Trunc(w.sunAltitudeAngle)]
  }

  /** `'%s/%d_%d_%d_%d_%d_%d' % (logFileName, ...)`. */
  function DirPrefix(logFileName: string, w: Weather): (s: string)
    ensures |logFileName| < |s| && s[..|logFileName| + 1] == logFileName + "/"
    ensures '/' !in s[|logFileName| + 1..]
  {
    WeatherDirName(w);
    logFileName + "/" + Join(Map(IntDecimal, WeatherValues(w)), '_')
  }

  /** The weather part of a run's directory is one path component: the six
      numbers hold neither '/' nor '_'. */
  lemma WeatherDirName(w: Weather)
    ensures var texts := Map(IntDecimal, WeatherValues(w));
      && |texts| == 6 && (forall k :: 0 <= k < 6 ==> '/' !in texts[k] && '_' !in texts[k])
      && '/' !in Join(texts, '_')
  {
    var values := WeatherValues(w);
    var texts := Map(IntDecimal, values);
    forall k | 0 <= k < 6 ensures texts[k] == IntDecimal(values[k]) && '/' !in texts[k] && '_' !in texts[k] {
      MapIndex(IntDecimal, values, k);
      IntDecimalText(values[k]);
    }
    JoinWithout(texts, '_', '/');
  }

  /** `DirPrefix` for one log, as a function of the weather. */
  function PrefixOf(logFileName: string): Weather -> string
  {
    w => DirPrefix(logFileName, w)
  }

  /** Accepted weathers write directory numbers inside the accepted ranges. */
  lemma AcceptedValues(w: Weather)
    requires Acceptable(w)
    ensures forall k :: 0 <= k < 4 ==> 0 <= WeatherValues(w)[k] <= 100
    ensures 0 <= WeatherValues(w)[4] <= 360 && -90 <= WeatherValues(w)[5] <= 90
  {
    TruncWithin(w.cloudyness, 0, 100);
    TruncWithin(w.precipitation, 0, 100);
    TruncWithin(w.precipitationDeposits, 0, 100);
    TruncWithin(w.windIntensity, 0, 100);
    TruncWithin(w.sunAzimuthAngle, 0, 360);
    TruncWithin(w.sunAltitudeAngle, -90, 90);
  }

  /** Text `int` reads back: an optional minus sign, then digits. */
  predicate IsIntText(s: string)
  {
    |s| >= 1 && if s[0] == '-' then AllDigits(s[1..]) else AllDigits(s)
  }

  lemma IntDecimalText(i: int)
    ensures IsIntText(IntDecimal(i)) && IntValue(IntDecimal(i)) == i
    ensures '/' !in IntDecimal(i) && '_' !in IntDecimal(i)
  {
    IntRoundTrip(i);
  }

  /** The prefix splits back into the log name and the six numbers. */
  lemma DirPrefixDecode(logFileName: string, w: Weather)
    requires '/' !in logFileName
    ensures var parts := Split(DirPrefix(logFileName, w), '/');
      |parts| == 2 && parts[0] == logFileName && |Split(parts[1], '_')| == 6
    ensures var fields := Split(Split(DirPrefix(logFileName, w), '/')[1], '_');
      forall k :: 0 <= k < 6 ==> IsIntText(fields[k]) && IntValue(fields[k]) == WeatherValues(w)[k]
  {
    var values := WeatherValues(w);
    var texts := Map(IntDecimal, values);
    WeatherDirName(w);
    var tail := Join(texts, '_');
    SplitAtSeparator(logFileName, '/', tail);
    SplitWithoutSeparator(tail, '/');
    SplitJoin(texts, '_');
    forall k | 0 <= k < 6 ensures IsIntText(texts[k]) && IntValue(texts[k]) == values[k] {
      MapIndex(IntDecimal, values, k);
      IntDecimalText(values[k]);
    }
  }

  /** Two weathers of one log share an output directory exactly when
      their truncated values agree. */
  lemma DirPrefixInjective(logFileName: string, w1: Weather, w2: Weather)
    requires '/' !in logFileName
    ensures DirPrefix(logFileName, w1) == DirPrefix(logFileName, w2) <==> WeatherValues(w1) == WeatherValues(w2)
  {
    if DirPrefix(logFileName, w1) == DirPrefix(logFileName, w2) {
      DirPrefixDecode(logFileName, w1);
      DirPrefixDecode(logFileName, w2);
      var v1, v2 := WeatherValues(w1), WeatherValues(w2);
      assert forall k :: 0 <= k < 6 ==> v1[k] == v2[k];
    }
  }

  // ---------------------------------------------------------------------
  // getLogName and getLogTime

  /** `getLogName`: the last '/'-separated piece of the text before the
      first '.'. */
  function GetLogName(logFile: string): string
  {
    var stem := Split(logFile, '.')[0];
    var parts := Split(stem, '/');
    parts[|parts| - 1]
  }

  /** The log name holds neither a '/' nor a '.'. */
  lemma GetLogNameChars(logFile: string)
    ensures '/' !in GetLogName(logFile) && '.' !in GetLogName(logFile)
  {
    var stem := Split(logFile, '.')[0];
    var parts := Split(stem, '/');
    assert '.' !in parts[|parts| - 1] by {
      SplitPiecesWithout(stem, '/', '.');
    }
  }

  /** The log name is what follows the last '/' of the text before the
      first '.'. */
  lemma GetLogNameParts(logFile: string)
    ensures var stem := Split(logFile, '.')[0];
      HeadBefore(logFile, stem, '.') && TailAfter(stem, GetLogName(logFile), '/')
  {
    var stem := Split(logFile, '.')[0];
    assert HeadBefore(logFile, stem, '.') by {
      SplitFirstPiece(logFile, '.');
    }
    assert TailAfter(stem, GetLogName(logFile), '/') by {
      SplitLastPiece(stem, '/');
    }
  }

  /** A path made of directories and a file name, none holding a '.',
      gives back the file name whatever its extension. */
  lemma GetLogNameOfPath(dirs: seq<string>, name: string, ext: string)
    requires forall k :: 0 <= k < |dirs| ==> '.' !in dirs[k] && '/' !in dirs[k]
    requires '.' !in name && '/' !in name
    ensures GetLogName(Join(dirs + [name], '/') + "." + ext) == name
  {
    var parts := dirs + [name];
    var path := Join(parts, '/');
    forall k | 0 <= k < |parts|
      ensures '.' !in parts[k] && '/' !in parts[k]
    {
      if k < |dirs| {
        assert parts[k] == dirs[k];
      }
    }
    assert Split(path + "." + ext, '.')[0] == path by {
      JoinWithout(parts, '/', '.');
      assert path + "." + ext == path + ['.'] + ext;
      SplitAtSeparator(path, '.', ext);
    }
    assert Split(path, '/') == parts by {
      SplitJoin(parts, '/');
    }
  }

  /** A '.' before the file name cuts the name there: a log given as
      `./Town03.log` gets the empty name. */
  lemma LogNameRelativePath()
    ensures GetLogName("./Town03.log") == ""
  {
  }

  /** `getLogTime` on the recorder summary: the second-to-last line (the
      last one when there is a single line), split on spaces, with its
      second token read as a float. None where indexing that token raises
      an IndexError. */
  function GetLogTime(info: string, toFloat: string -> real): Option<real>
  {
    var logFileInfo := Split(info, '\n');
    var logFileLength := |logFileInfo|;
    Duration(PyIndex(logFileInfo, logFileLength - 2), toFloat)
  }

  /** The second space-separated token of a line, read as a float. */
  function Duration(line: string, toFloat: string -> real): Option<real>
  {
    var durString := Split(line, ' ');
    if |durString| < 2 then None else Some(toFloat(durString[1]))
  }

  /** A summary without any space has no duration; a one-line summary is
      its own duration line (index -1 of a one-element list), read when it
      holds a space. */
  lemma LogTimeWithoutToken(info: string, toFloat: string -> real)
    ensures ' ' !in info ==> GetLogTime(info, toFloat) == None
    ensures '\n' !in info ==> (GetLogTime(info, toFloat).Some? <==> ' ' in info)
  {
    var logFileInfo := Split(info, '\n');
    var line := PyIndex(logFileInfo, |logFileInfo| - 2);
    if '\n' !in info {
      SplitWithoutSeparator(info, '\n');
      assert line == info;
    }
    if ' ' !in info {
      SplitPiecesWithout(info, '\n', ' ');
      SplitWithoutSeparator(line, ' ');
    }
  }

  /** A summary whose second-to-last line is `heading t unit` (CARLA writes
      `Duration: t seconds`) gives `t`, whatever the lines around it. */
  lemma LogTimeOfDurationLine(lines: seq<string>, heading: string, t: string, unit: string, last: string,
                              toFloat: string -> real)
    requires forall k :: 0 <= k < |lines| ==> '\n' !in lines[k]
    requires ' ' !in heading && '\n' !in heading && ' ' !in t && '\n' !in t && '\n' !in unit && '\n' !in last
    ensures GetLogTime(Join(lines + [heading + [' '] + (t + [' '] + unit), last], '\n'), toFloat) == Some(toFloat(t))
  {
    var durationLine := heading + [' '] + (t + [' '] + unit);
    var all := lines + [durationLine, last];
    forall k | 0 <= k < |all| ensures '\n' !in all[k] {
      if k < |lines| {
        assert all[k] == lines[k];
      } else if k == |lines| {
        assert all[k] == durationLine;
      }
    }
    SecondToLastLine(all, toFloat);
    DurationToken(heading, t, unit, toFloat);
  }

  /** Of lines joined by newlines, the second-to-last one is read. */
  lemma SecondToLastLine(all: seq<string>, toFloat: string -> real)
    requires |all| >= 2 && forall k :: 0 <= k < |all| ==> '\n' !in all[k]
    ensures GetLogTime(Join(all, '\n'), toFloat) == Duration(all[|all| - 2], toFloat)
  {
    var info := Join(all, '\n');
    assert Split(info, '\n') == all by {
      SplitJoin(all, '\n');
    }
  }

  lemma DurationToken(heading: string, t: string, unit: string, toFloat: string -> real)
    requires ' ' !in heading && ' ' !in t
    ensures Duration(heading + [' '] + (t + [' '] + unit), toFloat) == Some(toFloat(t))
  {
    SplitAtSeparator(heading, ' ', t + [' '] + unit);
    SplitAtSeparator(t, ' ', unit);
  }

  // ---------------------------------------------------------------------
  // iSensor

  /** `get_params()`: position and yaw of a camera. */
  datatype Params = Params(x: real, y: real, z: real, yaw: int)

  /** Where a camera saves frame `frame`:
      `'%s/%s/%06d.png' % (dirname, dirpath, frame)`. */
  function ImagePath(dirname: string, dirpath: string, frame: nat): string
  {
    dirname + "/" + dirpath + "/" + ImageName(frame)
  }

  /** The file name of a saved image is the zero-padded frame number and
      `.png`, and the frame number reads back from it. */
  lemma ImagePathFrame(dirname: string, dirpath: string, frame: nat)
    ensures var parts := Split(ImagePath(dirname, dirpath, frame), '/');
      var file := parts[|parts| - 1];
      |parts| >= 2 && file == ImageName(frame) && AllDigits(file[..|file| - 4])
      && DecimalValue(file[..|file| - 4]) == frame
  {
    var file := ImageName(frame);
    var digits := ZeroPad6(frame);
    assert file == digits + ".png";
    assert file[..|file| - 4] == digits;
    assert '/' !in file by {
      forall k | 0 <= k < |file| ensures file[k] != '/' {
        if k < |digits| {
          assert IsDigit(digits[k]);
        }
      }
    }
    var front := dirname + "/" + dirpath;
    assert ImagePath(dirname, dirpath, frame) == front + ['/'] + file;
    SplitLastAfter(front, '/', file);
    assert Count(front, '/') >= 1 by {
      assert front[|dirname|] == '/';
    }
    ZeroPad6RoundTrip(frame);
  }

  /** Frames of one camera are saved under different paths. */
  lemma ImagePathInjective(dirname: string, dirpath: string, f1: nat, f2: nat)
    requires ImagePath(dirname, dirpath, f1) == ImagePath(dirname, dirpath, f2)
    ensures f1 == f2
  {
    var front := dirname + "/" + dirpath + "/";
    var p1, p2 := ImagePath(dirname, dirpath, f1), ImagePath(dirname, dirpath, f2);
    assert p1 == front + ImageName(f1) && p2 == front + ImageName(f2);
    assert ImageName(f1) == p1[|front|..] == p2[|front|..] == ImageName(f2);
    ImageNameInjective(f1, f2);
  }

  /** One line of the `.cam` file: camera name, position and yaw. */
  datatype CamLine = CamLine(name: string, x: real, y: real, z: real, yaw: int)

  /** `iSensor`: a camera's placement and its output directory. */
  class Sensor {
    var x: real
    var y: real
    var z: real
    var yaw: int
    /** Set by `set_meta_params`; the attribute does not exist before. */
    var dirpath: Option<string>

    constructor ()
      ensures GetParams() == Params(0.0, 0.0, 0.0, 0) && dirpath == None
    {
      x, y, z, yaw := 0.0, 0.0, 0.0, 0;
      dirpath := None;
    }

    /** `set_meta_params(path, name)`: the camera saves under `path/name`. */
    method SetMetaParams(path: string, name: string)
      modifies this
      ensures dirpath == Some(path + "/" + name)
      ensures GetParams() == old(GetParams())
    {
      dirpath := Some(path + "/" + name);
    }

    /** `set_params`: what is set is what `get_params` returns. */
    method SetParams(x: real, y: real, z: real, yaw: int)
      modifies this
      ensures GetParams() == Params(x, y, z, yaw)
      ensures dirpath == old(dirpath)
    {
      this.x, this.y, this.z, this.yaw := x, y, z, yaw;
    }

    function GetParams(): Params
      reads this
    {
      Params(x, y, z, yaw)
    }

    /** The path the `listen` callback saves frame `frame` to. */
    function SavePath(dirname: string, frame: nat): string
      reads this
      requires dirpath.Some?
    {
      ImagePath(dirname, dirpath.value, frame)
    }

    /** This camera is the one `line` describes, saving under `dirprefix`. */
    ghost predicate Describes(line: CamLine, dirprefix: string)
      reads this
    {
      GetParams() == Params(line.x, line.y, line.z, line.yaw) && dirpath == Some(dirprefix + "/" + line.name)
    }
  }

  // ---------------------------------------------------------------------
  // sensor_handler

  /** How the loop of `sensor_handler` treats one line. `Malformed` lines
      end the script: an empty line makes `line[0]` raise, and a line
      without five fields reaches the error message, which names the
      undefined `linecounter`. */
  datatype LineKind = Comment | Camera(line: CamLine) | Malformed

  function ReadCamLine(line: string, toFloat: string -> real, toInt: string -> int): LineKind
  {
    if line == [] then Malformed
    else if line[0] == '#' then Comment
    else
      var args := Split(line, ' ');
      if |args| != 5 then Malformed
      else Camera(CamLine(args[0], toFloat(args[1]), toFloat(args[2]), toFloat(args[3]), toInt(args[4])))
  }

  /** A camera line written as five space-free fields reads back as them. */
  lemma CamLineRoundTrip(name: string, x: string, y: string, z: string, yaw: string,
                         toFloat: string -> real, toInt: string -> int)
    requires name != [] && name[0] != '#'
    requires ' ' !in name && ' ' !in x && ' ' !in y && ' ' !in z && ' ' !in yaw
    ensures ReadCamLine(Join([name, x, y, z, yaw], ' '), toFloat, toInt)
         == Camera(CamLine(name, toFloat(x), toFloat(y), toFloat(z), toInt(yaw)))
  {
    var fields := [name, x, y, z, yaw];
    SplitJoin(fields, ' ');
    assert Join(fields, ' ') == name + [' '] + Join(fields[1..], ' ');
  }

  /** The cameras a `.cam` file describes, in file order; None when a line
      ends the script. */
  function CamLines(lines: seq<string>, toFloat: string -> real, toInt: string -> int): (r: Option<seq<CamLine>>)
    ensures r.Some? ==> |r.value| <= |lines|
  {
    if lines == [] then Some([])
    else AddLine(CamLines(lines[..|lines| - 1], toFloat, toInt), ReadCamLine(lines[|lines| - 1], toFloat, toInt))
  }

  /** The cameras so far, after one more line. */
  function AddLine(cameras: Option<seq<CamLine>>, kind: LineKind): Option<seq<CamLine>>
  {
    match kind
    case Malformed => None
    case Comment => cameras
    case Camera(line) => if cameras.None? then None else Some(cameras.value + [line])
  }

  /** A `.cam` file fails exactly when one of its lines is malformed. */
  lemma {:induction false} CamLinesFail(lines: seq<string>, toFloat: string -> real, toInt: string -> int)
    ensures CamLines(lines, toFloat, toInt).None? <==>
      exists k :: 0 <= k < |lines| && ReadCamLine(lines[k], toFloat, toInt).Malformed?
  {
    if lines != [] {
      var n := |lines| - 1;
      CamLinesFail(lines[..n], toFloat, toInt);
      if exists k :: 0 <= k < n && ReadCamLine(lines[..n][k], toFloat, toInt).Malformed? {
        var k :| 0 <= k < n && ReadCamLine(lines[..n][k], toFloat, toInt).Malformed?;
        assert lines[k] == lines[..n][k];
      }
      if exists k :: 0 <= k < |lines| && ReadCamLine(lines[k], toFloat, toInt).Malformed? {
        var k :| 0 <= k < |lines| && ReadCamLine(lines[k], toFloat, toInt).Malformed?;
        if k < n {
          assert lines[..n][k] == lines[k];
        }
      }
    }
  }

  /** One more line of the file. */
  lemma CamLinesSnoc(init: seq<string>, line: string, toFloat: string -> real, toInt: string -> int)
    ensures CamLines(init + [line], toFloat, toInt) == AddLine(CamLines(init, toFloat, toInt), ReadCamLine(line, toFloat, toInt))
  {
    var lines := init + [line];
    assert lines[..|lines| - 1] == init && lines[|lines| - 1] == line;
  }

  /** Comment lines add no camera, wherever they are. */
  lemma {:induction false} CamLinesSkipComment(before: seq<string>, comment: string, after: seq<string>,
                                               toFloat: string -> real, toInt: string -> int)
    requires comment != [] && comment[0] == '#'
    ensures CamLines(before + [comment] + after, toFloat, toInt) == CamLines(before + after, toFloat, toInt)
    decreases |after|
  {
    if after == [] {
      assert before + [comment] + after == before + [comment] && before + after == before;
      assert ReadCamLine(comment, toFloat, toInt) == Comment;
      CamLinesSnoc(before, comment, toFloat, toInt);
    } else {
      var n := |after| - 1;
      var line := after[n];
      assert before + [comment] + after == (before + [comment] + after[..n]) + [line];
      assert before + after == (before + after[..n]) + [line];
      CamLinesSnoc(before + [comment] + after[..n], line, toFloat, toInt);
      CamLinesSnoc(before + after[..n], line, toFloat, toInt);
      assert CamLines(before + [comment] + after[..n], toFloat, toInt) == CamLines(before + after[..n], toFloat, toInt) by {
        CamLinesSkipComment(before, comment, after[..n], toFloat, toInt);
      }
    }
  }

  /** Every sensor of the list is the camera of the matching line. */
  ghost predicate Configured(sensors: seq<Sensor>, lines: seq<CamLine>, dirprefix: string)
    reads sensors
  {
    |sensors| == |lines| && forall k :: 0 <= k < |sensors| ==> sensors[k].Describes(lines[k], dirprefix)
  }

  /** What `sensor_handler` gives back. */
  datatype CamResult =
      /** The `.cam` file does not exist: nothing is returned. */
    | NoCamFile
      /** A malformed line raised. */
    | CamFileError
      /** `iSensor_list`. */
    | Sensors(sensors: seq<Sensor>)

  /** `sensor_handler`: one new camera per camera line, in file order,
      placed and named as the line says and saving under `dirprefix`. */
  method SensorHandler(camFile: Option<seq<string>>, dirprefix: string,
                       toFloat: string -> real, toInt: string -> int) returns (result: CamResult)
    ensures camFile.None? <==> result == NoCamFile
    ensures camFile.Some? ==> (result == CamFileError <==> CamLines(camFile.value, toFloat, toInt).None?)
    ensures result.Sensors? ==>
      && camFile.Some? && CamLines(camFile.value, toFloat, toInt).Some?
      && Configured(result.sensors, CamLines(camFile.value, toFloat, toInt).value, dirprefix)
  {
    if camFile.None? {
      return NoCamFile;
    }
    var lines := camFile.value;
    var sensorList: seq<Sensor> := [];
    ghost var cams: seq<CamLine> := [];
    for i := 0 to |lines|
      invariant CamLines(lines[..i], toFloat, toInt) == Some(cams)
      invariant Configured(sensorList, cams, dirprefix)
    {
      var line := lines[i];
      assert lines[..i + 1][..i] == lines[..i] && lines[..i + 1][i] == line;
      if line == [] {
        MalformedLine(lines, i, toFloat, toInt);
        return CamFileError;
      }
      var firstchar := line[0];
      if firstchar != '#' {
        var args := Split(line, ' ');
        if |args| != 5 {
          MalformedLine(lines, i, toFloat, toInt);
          return CamFileError;
        }
        var newSensor := new Sensor();
        newSensor.SetParams(toFloat(args[1]), toFloat(args[2]), toFloat(args[3]), toInt(args[4]));
        newSensor.SetMetaParams(dirprefix, args[0]);
        sensorList := sensorList + [newSensor];
        cams := cams + [CamLine(args[0], toFloat(args[1]), toFloat(args[2]), toFloat(args[3]), toInt(args[4]))];
      }
    }
    assert lines[..|lines|] == lines;
    return Sensors(sensorList);
  }

  lemma MalformedLine(lines: seq<string>, i: nat, toFloat: string -> real, toInt: string -> int)
    requires i < |lines| && ReadCamLine(lines[i], toFloat, toInt).Malformed?
    ensures CamLines(lines, toFloat, toInt).None?
  {
    CamLinesFail(lines, toFloat, toInt);
  }

  // ---------------------------------------------------------------------
  // The weather loop of main

  /** The weathers of the lines before the first rejected one. */
  function AcceptedWeathers(lines: seq<string>, toFloat: string -> real): seq<Weather>
  {
    if lines == [] then []
    else match WeatherHandler(lines[0], toFloat)
      case None => []
      case Some(w) => [w] + AcceptedWeathers(lines[1..], toFloat)
  }

  /** The accepted weathers are those of a prefix of the file, line by
      line, and the line after them, if any, is rejected. */
  lemma {:induction false} AcceptedWeathersPrefix(lines: seq<string>, toFloat: string -> real)
    ensures var accepted := AcceptedWeathers(lines, toFloat);
      && |accepted| <= |lines|
      && (forall k :: 0 <= k < |accepted| ==> WeatherHandler(lines[k], toFloat) == Some(accepted[k]))
      && (|accepted| < |lines| ==> WeatherHandler(lines[|accepted|], toFloat) == None)
  {
    if lines != [] && WeatherHandler(lines[0], toFloat).Some? {
      AcceptedWeathersPrefix(lines[1..], toFloat);
      var rest := AcceptedWeathers(lines[1..], toFloat);
      forall k | 1 <= k < |rest| + 1 ensures lines[k] == lines[1..][k - 1] {
      }
    }
  }

  /** `weathers` are the weathers of the first lines, line by line. */
  predicate AcceptedUpTo(lines: seq<string>, weathers: seq<Weather>, toFloat: string -> real)
  {
    |weathers| <= |lines| && forall k :: 0 <= k < |weathers| ==> WeatherHandler(lines[k], toFloat) == Some(weathers[k])
  }

  lemma AcceptedUpToSnoc(lines: seq<string>, weathers: seq<Weather>, w: Weather, toFloat: string -> real)
    requires AcceptedUpTo(lines, weathers, toFloat) && |weathers| < |lines|
    requires WeatherHandler(lines[|weathers|], toFloat) == Some(w)
    ensures AcceptedUpTo(lines, weathers + [w], toFloat)
  {
    forall k | 0 <= k < |weathers| + 1 ensures WeatherHandler(lines[k], toFloat) == Some((weathers + [w])[k]) {
      if k < |weathers| {
        assert (weathers + [w])[k] == weathers[k];
      }
    }
  }

  /** The accepted weathers are the only prefix of accepted lines that
      ends with the file or at a rejected line. */
  lemma {:induction false} AcceptedWeathersUnique(lines: seq<string>, weathers: seq<Weather>, toFloat: string -> real)
    requires AcceptedUpTo(lines, weathers, toFloat)
    requires |weathers| < |lines| ==> WeatherHandler(lines[|weathers|], toFloat) == None
    ensures AcceptedWeathers(lines, toFloat) == weathers
  {
    if weathers != [] {
      assert WeatherHandler(lines[0], toFloat) == Some(weathers[0]);
      forall k | 0 <= k < |weathers| - 1
        ensures WeatherHandler(lines[1..][k], toFloat) == Some(weathers[1..][k])
      {
        assert lines[1..][k] == lines[k + 1];
      }
      if |weathers| < |lines| {
        assert lines[1..][|weathers| - 1] == lines[|weathers|];
      }
      AcceptedWeathersUnique(lines[1..], weathers[1..], toFloat);
    }
  }

  /** The `.cam` file exists and reads without error. */
  predicate CamFileOk(camFile: Option<seq<string>>, toFloat: string -> real, toInt: string -> int)
  {
    camFile.Some? && CamLines(camFile.value, toFloat, toInt).Some?
  }

  /** How the weather loop ends. */
  datatype LoopEnd =
      /** Every line was replayed: post-processing follows. */
    | AllReplayed
      /** `weatherHandler` rejected this line and `main` returned. */
    | WeatherRejected(line: nat)
      /** `sensor_handler` raised or returned nothing on the first replay. */
    | CameraFileFailed

  /** The loop over the weather file in `main`: each accepted line is one
      `replay_file` run saving under its `dirprefix`; the loop ends at the
      first rejected line, or on the first run when the `.cam` file is
      missing or malformed. */
  method WeatherLoop(weatherLines: seq<string>, camFile: Option<seq<string>>, logFileName: string,
                     toFloat: string -> real, toInt: string -> int)
    returns (replays: seq<string>, end: LoopEnd)
    ensures var accepted := AcceptedWeathers(weatherLines, toFloat);
      CamFileOk(camFile, toFloat, toInt) || accepted == [] ==>
        && replays == Map(PrefixOf(logFileName), accepted)
        && end == (if |accepted| == |weatherLines| then AllReplayed else WeatherRejected(|accepted|))
    ensures var accepted := AcceptedWeathers(weatherLines, toFloat);
      !CamFileOk(camFile, toFloat, toInt) && accepted != [] ==>
        replays == [DirPrefix(logFileName, accepted[0])] && end == CameraFileFailed
  {
    ghost var camerasOk := CamFileOk(camFile, toFloat, toInt);
    ghost var prefixOf := PrefixOf(logFileName);
    replays := [];
    ghost var processed: seq<Weather> := [];
    for i := 0 to |weatherLines|
      invariant |processed| == i
      invariant AcceptedUpTo(weatherLines, processed, toFloat)
      invariant replays == Map(prefixOf, processed)
      invariant i > 0 ==> camerasOk
    {
      var weather := WeatherHandler(weatherLines[i], toFloat);
      if weather == None {
        AcceptedWeathersUnique(weatherLines, processed, toFloat);
        end := WeatherRejected(i);
        return;
      }
      var dirprefix, camerasAttached := Replay(logFileName, weather.value, camFile, toFloat, toInt);
      assert replays + [dirprefix] == Map(prefixOf, processed + [weather.value]) by {
        MapSnoc(prefixOf, processed, weather.value);
      }
      AcceptedUpToSnoc(weatherLines, processed, weather.value, toFloat);
      replays := replays + [dirprefix];
      processed := processed + [weather.value];
      if !camerasAttached {
        assert AcceptedWeathers(weatherLines, toFloat)[0] == weather.value;
        end := CameraFileFailed;
        return;
      }
    }
    AcceptedWeathersUnique(weatherLines, processed, toFloat);
    end := AllReplayed;
  }

  /** One pass of the loop body after the weather is accepted: the run
      saves under `dirprefix`, and the cameras are attached unless
      `sensor_handler` fails. */
  method Replay(logFileName: string, weather: Weather, camFile: Option<seq<string>>,
                toFloat: string -> real, toInt: string -> int)
    returns (dirprefix: string, camerasAttached: bool)
    ensures dirprefix == DirPrefix(logFileName, weather)
    ensures camerasAttached <==> CamFileOk(camFile, toFloat, toInt)
  {
    dirprefix := DirPrefix(logFileName, weather);
    var sensorList := SensorHandler(camFile, dirprefix, toFloat, toInt);
    camerasAttached := sensorList.Sensors?;
  }

  /** Every weather line is replayed, so `postProcess` runs. */
  predicate ReplaysAll(weatherLines: seq<string>, camFile: Option<seq<string>>,
                       toFloat: string -> real, toInt: string -> int)
  {
    |AcceptedWeathers(weatherLines, toFloat)| == |weatherLines|
    && (weatherLines == [] || CamFileOk(camFile, toFloat, toInt))
  }

  // ---------------------------------------------------------------------
  // main

  datatype CaptureOutcome =
      /** `getLogTime` raised: the recorder summary has no duration token. */
    | LogInfoError
      /** The weather file does not exist. */
    | NoWeatherFile
      /** The loop stopped before the end: no post-processing. */
    | Stopped(end: LoopEnd)
      /** `postProcess` found no sensor directory: `min` raised. */
    | NoImages
      /** `postProcess` renumbered every sensor directory to this count. */
    | Done(minImages: nat)

  /** `main` from reading the log file on. `output` is the directory
      `dir/logFileName` as the cameras left it. */
  method CaptureData(logFile: string, recorderInfo: string, weatherFile: Option<seq<string>>,
                     camFile: Option<seq<string>>, output: FileTree,
                     toFloat: string -> real, toInt: string -> int)
    returns (logFileName: string, replays: seq<string>, outcome: CaptureOutcome)
    modifies output
    ensures logFileName == GetLogName(logFile)
    ensures outcome == LogInfoError <==> GetLogTime(recorderInfo, toFloat).None?
    ensures outcome == NoWeatherFile <==> GetLogTime(recorderInfo, toFloat).Some? && weatherFile.None?
    ensures outcome.Done? || outcome == NoImages <==>
      GetLogTime(recorderInfo, toFloat).Some? && weatherFile.Some?
      && ReplaysAll(weatherFile.value, camFile, toFloat, toInt)
    ensures weatherFile.Some? && GetLogTime(recorderInfo, toFloat).Some? ==>
      var accepted := AcceptedWeathers(weatherFile.value, toFloat);
      && (CamFileOk(camFile, toFloat, toInt) || accepted == [] ==> replays == Map(PrefixOf(logFileName), accepted))
      && (!CamFileOk(camFile, toFloat, toInt) && accepted != [] ==> replays == [DirPrefix(logFileName, accepted[0])])
    ensures weatherFile.None? || GetLogTime(recorderInfo, toFloat).None? ==> replays == []
    ensures outcome == NoImages ==> !HasSensorDir(old(output.folders))
    ensures outcome.Done? ==>
      && IsMinCount(old(output.folders), outcome.minImages)
      && output.folders == Renumbered(old(output.folders), outcome.minImages)
    ensures !outcome.Done? ==> output.folders == old(output.folders)
  {
    logFileName := GetLogName(logFile);
    replays := [];
    var logTime := GetLogTime(recorderInfo, toFloat);
    if logTime.None? {
      return logFileName, replays, LogInfoError;
    }
    if weatherFile.None? {
      return logFileName, replays, NoWeatherFile;
    }
    var end;
    replays, end := WeatherLoop(weatherFile.value, camFile, logFileName, toFloat, toInt);
    ghost var accepted := AcceptedWeathers(weatherFile.value, toFloat);
    AcceptedWeathersPrefix(weatherFile.value, toFloat);
    if end != AllReplayed {
      return logFileName, replays, Stopped(end);
    }
    var minImages := output.PostProcess();
    if minImages.None? {
      outcome := NoImages;
    } else {
      outcome := Done(minImages.value);
    }
  }
}
