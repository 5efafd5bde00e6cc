/**
 * The browser, system and network sections of `getVisitorInfo`
 * (script.js:40-63, 65-80, 103-112) built from explicit probe results, and
 * the label table `displayVisitorInfo` renders them with (script.js:153-191).
 */
module Dashboard {
  import opened Wrappers
  import opened Text
  import opened UserAgent
  import opened Probes
  import opened Render

  /** The static label table. */
  const Labels: LabelTable := map[
    "browser" := "Navegador",
    "userAgent" := "User Agent",
    "cookiesEnabled" := "Cookies Habilitadas",
    "onlineStatus" := "Estado de Conexión",
    "vendor" := "Proveedor",
    "os" := "Sistema Operativo",
    "deviceType" := "Tipo de Dispositivo",
    "timezone" := "Zona Horaria",
    "language" := "Idioma",
    "cores" := "Núcleos CPU",
    "memoria" := "Memoria RAM",
    "bateria" := "Estado de Batería",
    "gpu" := "Tarjeta Gráfica",
    "preferencias.reduccionMovimiento" := "Prefiere Reducir Movimiento",
    "preferencias.modoOscuro" := "Prefiere Modo Oscuro",
    "preferencias.contrasteAlto" := "Prefiere Alto Contraste",
    "screenResolution" := "Resolución de Pantalla",
    "colorDepth" := "Profundidad de Color",
    "windowSize" := "Tamaño de Ventana",
    "touchScreen" := "Pantalla Táctil",
    "pixelRatio" := "Ratio de Píxeles",
    "numScreens" := "Número de Pantallas",
    "orientation" := "Orientación",
    "screenAvailable" := "Área Disponible",
    "maxTouchPoints" := "Puntos Táctiles Máximos",
    "fullscreenSupported" := "Soporta Pantalla Completa",
    "posicionX" := "Posición X",
    "posicionY" := "Posición Y",
    "ultimoClick" := "Último Click",
    "ip" := "Dirección IP",
    "conexion" := "Tipo de Conexión",
    "velocidad" := "Velocidad de Descarga"
  ]

  /** Shown while a value is still being looked up. */
  const Checking: string := "Verificando..."

  /** Battery API result: the percentage text of `(level * 100).toFixed(0)` and the charging flag. */
  datatype BatteryProbe = NoBatteryApi | BatteryApi(percent: NumText, charging: bool)

  /** WebGL result: no context at all, or a context with or without the debug renderer string. */
  datatype GpuProbe = NoWebGl | WebGl(renderer: Option<string>)

  /** Everything the three sections read from `navigator`, `window` and `Intl`. */
  datatype Probe = Probe(
    userAgent: string,
    platform: Option<string>,
    cookieEnabled: bool,
    onLine: bool,
    vendor: Option<string>,
    timeZone: string,
    language: Option<string>,
    userLanguage: Option<string>,
    cores: Option<nat>,
    deviceMemory: Option<NumText>,
    battery: BatteryProbe,
    gpu: GpuProbe,
    reducedMotion: bool,
    darkScheme: bool,
    highContrast: bool,
    connection: Option<Connection>)

  /** The text of a boolean probe: "Sí" exactly when it holds, otherwise "No". */
  function YesNo(b: bool): (r: string)
    ensures r == "Sí" <==> b
    ensures r == "Sí" || r == "No"
  {
    if b then "Sí" else "No"
  }

  function Keys(sec: Section): (ks: seq<string>)
    ensures |ks| == |sec|
  {
    seq(|sec|, i requires 0 <= i < |sec| => sec[i].0)
  }

  /** Every scalar key and every dotted leaf key of `sec` has a non-empty label in `labels`. */
  ghost predicate KeysLabelled(sec: Section, labels: LabelTable) {
    forall e :: 0 <= e < |sec| ==>
      (sec[e].1.Scalar? ==> sec[e].0 in labels && labels[sec[e].0] != "") &&
      (sec[e].1.Nested? ==> forall j :: 0 <= j < |sec[e].1.m| ==>
         sec[e].0 + "." + sec[e].1.m[j].0 in labels && labels[sec[e].0 + "." + sec[e].1.m[j].0] != "")
  }

  /**
   * Every shown item of `sec` carries the table's label: a scalar entry's item
   * the label of its key, a nested leaf's item the label of its dotted key.
   * No item shows a raw key.
   */
  ghost predicate ItemsLabelledFromTable(sec: Section, labels: LabelTable) {
    (forall e :: 0 <= e < |sec| && sec[e].1.Scalar? ==>
       sec[e].0 in labels && LeafCount(sec[..e]) < |Flatten(sec, labels)| &&
       Flatten(sec, labels)[LeafCount(sec[..e])].labelText == labels[sec[e].0]) &&
    (forall e, j :: 0 <= e < |sec| && sec[e].1.Nested? && 0 <= j < |sec[e].1.m| ==>
       sec[e].0 + "." + sec[e].1.m[j].0 in labels && LeafCount(sec[..e]) + j < |Flatten(sec, labels)| &&
       Flatten(sec, labels)[LeafCount(sec[..e]) + j].labelText == labels[sec[e].0 + "." + sec[e].1.m[j].0])
  }

  // ---------------------------------------------------------------------
  // Browser section (script.js:40-46)
  // ---------------------------------------------------------------------

  const BrowserKeys: seq<string> := ["browser", "userAgent", "cookiesEnabled", "onlineStatus", "vendor"]

  function BrowserSection(p: Probe): (sec: Section)
    ensures Keys(sec) == BrowserKeys
    ensures forall e :: 0 <= e < |sec| ==> sec[e].1.Scalar?
    ensures forall e :: 0 <= e < |sec| && sec[e].0 != "userAgent" ==> sec[e].1.s != ""
  {
    [ ("browser", Scalar(DetectBrowser(p.userAgent))),
      ("userAgent", Scalar(p.userAgent)),
      ("cookiesEnabled", Scalar(YesNo(p.cookieEnabled))),
      ("onlineStatus", Scalar(if p.onLine then "Conectado" else "Desconectado")),
      ("vendor", Scalar(OrUnavailable(p.vendor))) ]
  }

  // ---------------------------------------------------------------------
  // System section (script.js:49-80)
  // ---------------------------------------------------------------------

  const SystemKeys: seq<string> :=
    ["os", "deviceType", "timezone", "language", "cores", "memoria", "bateria", "gpu", "preferencias"]

  /** The three media-query preferences, one level deep. */
  function Preferences(p: Probe): (v: Value)
    ensures v.Nested? && |v.m| == |PreferenceKeys|
    ensures forall j :: 0 <= j < |v.m| ==> v.m[j].0 == PreferenceKeys[j]
  {
    Nested([ ("reduccionMovimiento", YesNo(p.reducedMotion)),
             ("modoOscuro", YesNo(p.darkScheme)),
             ("contrasteAlto", YesNo(p.highContrast)) ])
  }

  /** The system section with the given texts for its battery and graphics fields. */
  function SystemEntries(p: Probe, battery: string, gpu: string): (sec: Section)
    ensures Keys(sec) == SystemKeys
    ensures sec[4].1 == Scalar(CoresDisplay(p.cores)) && sec[6].1 == Scalar(battery) && sec[7].1 == Scalar(gpu)
  {
    [ ("os", Scalar(DetectOs(p.platform, p.userAgent))),
      ("deviceType", Scalar(DetectDeviceType(p.userAgent))),
      ("timezone", Scalar(p.timeZone)),
      ("language", Scalar(LanguageDisplay(p.language, p.userLanguage))),
      ("cores", Scalar(CoresDisplay(p.cores))),
      ("memoria", Scalar(MemoryDisplay(p.deviceMemory))),
      ("bateria", Scalar(battery)),
      ("gpu", Scalar(gpu)),
      ("preferencias", Preferences(p)) ]
  }

  /**
   * The battery text at the moment the section is rendered. Without the
   * Battery API it is set to the placeholder at once; with it, the promise
   * callback runs only after the synchronous render, so the text is still
   * "Verificando...".
   */
  function BatteryAtRender(b: BatteryProbe): (r: string)
    ensures b.NoBatteryApi? ==> r == Unavailable
    ensures b.BatteryApi? ==> r == Checking
  {
    match b
    case NoBatteryApi => Unavailable
    case BatteryApi(_, _) => Checking
  }

  /**
   * The graphics text: the debug renderer string when a WebGL context offers
   * it, the placeholder when the context lacks the extension, and
   * "Verificando..." left in place when there is no WebGL context.
   */
  function GpuAtRender(g: GpuProbe): (r: string)
    ensures g.NoWebGl? ==> r == Checking
    ensures g.WebGl? && g.renderer.Some? ==> r == g.renderer.value
    ensures g.WebGl? && g.renderer.None? ==> r == Unavailable
  {
    match g
    case NoWebGl => Checking
    case WebGl(Some(r)) => r
    case WebGl(None) => Unavailable
  }

  /** `systemData` as `displayVisitorInfo` renders it. */
  function SystemSection(p: Probe): (sec: Section)
    ensures Keys(sec) == SystemKeys
  {
    SystemEntries(p, BatteryAtRender(p.battery), GpuAtRender(p.gpu))
  }

  /** The battery text the callback at script.js:68 builds: "<percent>% - Cargando" or "... - No cargando". */
  function BatteryDescription(b: BatteryProbe): (r: string)
    ensures b.NoBatteryApi? ==> r == Unavailable
    ensures b.BatteryApi? ==> r == b.percent + "% - " + (if b.charging then "Cargando" else "No cargando")
  {
    match b
    case NoBatteryApi => Unavailable
    case BatteryApi(percent, charging) => percent + "% - " + (if charging then "Cargando" else "No cargando")
  }

  /** Graphics text with the placeholder also when there is no WebGL context. */
  function GpuDescription(g: GpuProbe): (r: string)
    ensures g.WebGl? && g.renderer.Some? ==> r == g.renderer.value
    ensures !(g.WebGl? && g.renderer.Some?) ==> r == Unavailable
  {
    match g
    case WebGl(Some(r)) => r
    case _ => Unavailable
  }

  /** The system section as evidently intended: battery state awaited, and the placeholder without WebGL. */
  function SystemSectionIntended(p: Probe): (sec: Section)
    ensures Keys(sec) == SystemKeys
  {
    SystemEntries(p, BatteryDescription(p.battery), GpuDescription(p.gpu))
  }

  // ---------------------------------------------------------------------
  // Network section (script.js:104-112)
  // ---------------------------------------------------------------------

  const NetworkKeys: seq<string> := ["ip", "conexion", "velocidad"]

  /** The placeholder address the section always shows. */
  const PlaceholderIp: string := "192.168.1.1"

  function NetworkSection(p: Probe): (sec: Section)
    ensures Keys(sec) == NetworkKeys
    ensures forall e :: 0 <= e < |sec| ==> sec[e].1.Scalar? && sec[e].1.s != ""
  {
    [ ("ip", Scalar(PlaceholderIp)),
      ("conexion", Scalar(ConnectionTypeDisplay(p.connection))),
      ("velocidad", Scalar(DownlinkDisplay(p.connection))) ]
  }

  // ---------------------------------------------------------------------
  // Lemmas
  // ---------------------------------------------------------------------

  /** The sub-keys of the nested "preferencias" entry. */
  const PreferenceKeys: seq<string> := ["reduccionMovimiento", "modoOscuro", "contrasteAlto"]

  /** Every key of the browser section has a non-empty label. */
  lemma BrowserKeysLabelled()
    ensures forall e :: 0 <= e < |BrowserKeys| ==> BrowserKeys[e] in Labels && Labels[BrowserKeys[e]] != ""
  {
  }

  /** Every scalar key of the system section, and every dotted preference key, has a non-empty label. */
  lemma SystemKeysLabelled()
    ensures forall e :: 0 <= e < 8 ==> SystemKeys[e] in Labels && Labels[SystemKeys[e]] != ""
    ensures forall j :: 0 <= j < |PreferenceKeys| ==>
              SystemKeys[8] + "." + PreferenceKeys[j] in Labels && Labels[SystemKeys[8] + "." + PreferenceKeys[j]] != ""
  {
    assert SystemKeys[8] + "." + PreferenceKeys[0] == "preferencias.reduccionMovimiento";
    assert SystemKeys[8] + "." + PreferenceKeys[1] == "preferencias.modoOscuro";
    assert SystemKeys[8] + "." + PreferenceKeys[2] == "preferencias.contrasteAlto";
  }

  /** Every key of the network section has a non-empty label. */
  lemma NetworkKeysLabelled()
    ensures forall e :: 0 <= e < |NetworkKeys| ==> NetworkKeys[e] in Labels && Labels[NetworkKeys[e]] != ""
  {
  }

  /** When every key and dotted key of a section has a label, every shown item carries the table's label. */
  lemma ItemsLabelledFromKeys(sec: Section, labels: LabelTable)
    requires KeysLabelled(sec, labels)
    ensures ItemsLabelledFromTable(sec, labels)
  {
    forall e | 0 <= e < |sec| && sec[e].1.Scalar?
      ensures LeafCount(sec[..e]) < |Flatten(sec, labels)| &&
              Flatten(sec, labels)[LeafCount(sec[..e])].labelText == labels[sec[e].0]
    {
      ScalarLabelFromTable(sec, labels, e);
    }
    forall e, j | 0 <= e < |sec| && sec[e].1.Nested? && 0 <= j < |sec[e].1.m|
      ensures LeafCount(sec[..e]) + j < |Flatten(sec, labels)| &&
              Flatten(sec, labels)[LeafCount(sec[..e]) + j].labelText == labels[sec[e].0 + "." + sec[e].1.m[j].0]
    {
      NestedLeafLabelFromTable(sec, labels, e, j);
    }
  }

  /**
   * Whatever the probes return, every shown item of the three sections carries
   * the table's label for its key or dotted key: no raw key ever shows.
   */
  lemma SectionsFullyLabelled(p: Probe)
    ensures ItemsLabelledFromTable(BrowserSection(p), Labels)
    ensures ItemsLabelledFromTable(SystemSection(p), Labels)
    ensures ItemsLabelledFromTable(SystemSectionIntended(p), Labels)
    ensures ItemsLabelledFromTable(NetworkSection(p), Labels)
  {
    BrowserKeysLabelled();
    NetworkKeysLabelled();
    var b := BrowserSection(p);
    forall e | 0 <= e < |b| ensures b[e].0 == BrowserKeys[e] {
      assert b[e].0 == Keys(b)[e];
    }
    assert KeysLabelled(b, Labels);
    ItemsLabelledFromKeys(b, Labels);
    SystemKeysCovered(p, BatteryAtRender(p.battery), GpuAtRender(p.gpu));
    ItemsLabelledFromKeys(SystemSection(p), Labels);
    SystemKeysCovered(p, BatteryDescription(p.battery), GpuDescription(p.gpu));
    ItemsLabelledFromKeys(SystemSectionIntended(p), Labels);
    var n := NetworkSection(p);
    forall e | 0 <= e < |n| ensures n[e].0 == NetworkKeys[e] {
      assert n[e].0 == Keys(n)[e];
    }
    assert KeysLabelled(n, Labels);
    ItemsLabelledFromKeys(n, Labels);
  }

  lemma SystemKeysCovered(p: Probe, battery: string, gpu: string)
    ensures KeysLabelled(SystemEntries(p, battery, gpu), Labels)
  {
    SystemKeysLabelled();
    var s := SystemEntries(p, battery, gpu);
    forall e | 0 <= e < |s| ensures s[e].0 == SystemKeys[e] {
      assert s[e].0 == Keys(s)[e];
    }
    assert s[8].1.Nested? && forall j :: 0 <= j < |s[8].1.m| ==> s[8].1.m[j].0 == PreferenceKeys[j];
    assert forall e :: 0 <= e < 8 ==> s[e].1.Scalar?;
  }

  lemma SystemLeadingCount(p: Probe, battery: string, gpu: string, e: nat)
    requires e <= 8
    ensures LeafCount(SystemEntries(p, battery, gpu)[..e]) == e
  {
    var sec := SystemEntries(p, battery, gpu);
    if e > 0 {
      SystemLeadingCount(p, battery, gpu, e - 1);
      assert sec[..e] == sec[..e - 1] + [sec[e - 1]];
      LeafCountAppend(sec[..e - 1], [sec[e - 1]]);
    }
  }

  /**
   * The system section always shows eleven items: its eight scalar fields,
   * then the three preferences.
   */
  lemma SystemItemCount(p: Probe, battery: string, gpu: string, labels: LabelTable)
    ensures |Flatten(SystemEntries(p, battery, gpu), labels)| == 11
  {
    var sec := SystemEntries(p, battery, gpu);
    SystemLeadingCount(p, battery, gpu, 8);
    assert sec == sec[..8] + [sec[8]];
    LeafCountAppend(sec[..8], [sec[8]]);
    FlattenCount(sec, labels);
  }

  lemma CoresLabel()
    ensures "cores" in Labels && Labels["cores"] == "Núcleos CPU"
  {
  }

  /**
   * Without a core count (absent or zero) the system section shows the item
   * "Núcleos CPU" / "No disponible", and its HTML holds that fragment.
   */
  lemma CoresPlaceholderShown(p: Probe)
    requires p.cores.None? || p.cores.value == 0
    ensures var sec := SystemSection(p);
            |Flatten(sec, Labels)| == 11 &&
            Flatten(sec, Labels)[4] == Item("Núcleos CPU", Unavailable, ScalarIndent) &&
            exists i :: OccursAt(RenderSection(sec, Labels), Fragment(ScalarIndent, "Núcleos CPU", Unavailable), i)
  {
    var sec := SystemSection(p);
    var battery, gpu := BatteryAtRender(p.battery), GpuAtRender(p.gpu);
    SystemItemCount(p, battery, gpu, Labels);
    SystemLeadingCount(p, battery, gpu, 4);
    assert sec[4].0 == "cores" by { assert Keys(sec)[4] == sec[4].0; }
    CoresLabel();
    ScalarItemAt(sec, Labels, 4);
    RenderShowsItem(sec, Labels, 4);
  }

  /**
   * As written, a browser with the Battery API always shows "Verificando..." as
   * its battery state, whatever the battery's level and charging state.
   */
  lemma BatteryNeverShownAsWritten(p: Probe, labels: LabelTable)
    requires p.battery.BatteryApi?
    ensures |Flatten(SystemSection(p), labels)| == 11
    ensures Flatten(SystemSection(p), labels)[6].value == Checking
  {
    var sec := SystemSection(p);
    SystemItemCount(p, BatteryAtRender(p.battery), GpuAtRender(p.gpu), labels);
    SystemLeadingCount(p, BatteryAtRender(p.battery), GpuAtRender(p.gpu), 6);
    ScalarItemAt(sec, labels, 6);
  }

  /** As written, a browser without WebGL shows "Verificando..." as its graphics card for good. */
  lemma GpuStuckCheckingAsWritten(p: Probe, labels: LabelTable)
    requires p.gpu.NoWebGl?
    ensures |Flatten(SystemSection(p), labels)| == 11
    ensures Flatten(SystemSection(p), labels)[7].value == Checking
  {
    var sec := SystemSection(p);
    SystemItemCount(p, BatteryAtRender(p.battery), GpuAtRender(p.gpu), labels);
    SystemLeadingCount(p, BatteryAtRender(p.battery), GpuAtRender(p.gpu), 7);
    ScalarItemAt(sec, labels, 7);
  }

  /**
   * In the intended section the battery item shows the battery's state when the
   * API exists, and the graphics item is never left at "Verificando..." by a
   * missing WebGL context; neither is "Verificando..." for any probe result
   * other than a renderer string that reads so.
   */
  lemma IntendedShowsFinalValues(p: Probe, labels: LabelTable)
    ensures var items := Flatten(SystemSectionIntended(p), labels);
            |items| == 11 &&
            items[6].value == BatteryDescription(p.battery) &&
            items[6].value != Checking &&
            (p.gpu.NoWebGl? ==> items[7].value == Unavailable)
  {
    var sec := SystemSectionIntended(p);
    var battery, gpu := BatteryDescription(p.battery), GpuDescription(p.gpu);
    SystemItemCount(p, battery, gpu, labels);
    SystemLeadingCount(p, battery, gpu, 6);
    ScalarItemAt(sec, labels, 6);
    SystemLeadingCount(p, battery, gpu, 7);
    ScalarItemAt(sec, labels, 7);
    if p.battery.BatteryApi? {
      assert battery[|battery| - 1] == 'o';
    } else {
      assert battery[0] == 'N';
    }
  }
}
